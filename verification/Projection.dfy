/** What the commands of one event do to the actor's tracks and boards, and the deltas reported for it. */
module Projection {
  import opened Common
  import Progression

  datatype Command =
    | AwardXp(track: string, amount: int)
    | AddCurrency(currency: string, amount: int)
    | SpendCurrency(currency: string, amount: int)
    | UpdateLeaderboard(board: string, delta: int)
    | Other

  datatype TrackDef = TrackDef(id: string, name: string, model: Progression.Model)

  /** A leaderboard; `xp` when its metric is experience. */
  datatype Board = Board(id: string, xp: bool, track: string)

  datatype Config = Config(tracks: seq<TrackDef>, boards: seq<Board>)

  datatype Track = Track(xp: int, level: int, highest: int)

  datatype Projected = Projected(
    tracks: map<string, Track>, boards: map<string, int>,
    wallet: map<string, int>, xp: map<string, int>, levelUps: map<string, int>, boardUpdates: map<string, int>)

  function Get(m: map<string, int>, key: string): int { if key in m then m[key] else 0 }

  function Bump(m: map<string, int>, key: string, delta: int): map<string, int> { m[key := Get(m, key) + delta] }

  function TrackOf(s: Projected, track: string): Track { if track in s.tracks then s.tracks[track] else Track(0, 0, 0) }

  /** The model of the first track known by this id or name. */
  function ModelOf(tracks: seq<TrackDef>, track: string): Option<Progression.Model> {
    if tracks == [] then None
    else if tracks[0].id == track || tracks[0].name == track then Some(tracks[0].model)
    else ModelOf(tracks[1..], track)
  }

  function Awarded(model: Option<Progression.Model>, t: Track, amount: int): Track {
    var xp := Max(t.xp + amount, 0);
    match model
    case Some(m) => var level := Progression.LevelFor(m, xp); Track(xp, level, Max(t.highest, level))
    case None => t.(xp := xp)
  }

  /** A board without a track watches every track. */
  predicate Watches(b: Board, track: string) { b.xp && (b.track == "" || b.track == track) }

  function Publish(boards: seq<Board>, track: string, xp: int, scores: map<string, int>): map<string, int> {
    if boards == [] then scores
    else
      var before := Publish(boards[..|boards| - 1], track, xp, scores);
      if Watches(boards[|boards| - 1], track) then before[boards[|boards| - 1].id := xp] else before
  }

  function Apply(cfg: Config, s: Projected, cmd: Command): Projected {
    match cmd
    case AwardXp(track, amount) =>
      var t, model := TrackOf(s, track), ModelOf(cfg.tracks, track);
      var next := Awarded(model, t, amount);
      Projected(s.tracks[track := next], Publish(cfg.boards, track, next.xp, s.boards), s.wallet,
                Bump(s.xp, track, amount),
                if model.Some? && next.level > t.level then s.levelUps[track := next.level] else s.levelUps,
                Publish(cfg.boards, track, next.xp, s.boardUpdates))
    case AddCurrency(currency, amount) => s.(wallet := Bump(s.wallet, currency, amount))
    case SpendCurrency(currency, amount) => s.(wallet := Bump(s.wallet, currency, -amount))
    case UpdateLeaderboard(board, delta) =>
      var next := Get(s.boards, board) + delta;
      s.(boards := s.boards[board := next], boardUpdates := s.boardUpdates[board := next])
    case Other => s
  }

  function Project(cfg: Config, s: Projected, commands: seq<Command>): Projected {
    if commands == [] then s else Apply(cfg, Project(cfg, s, commands[..|commands| - 1]), commands[|commands| - 1])
  }

  class Engine {
    var tracks: map<string, Track>
    var boards: map<string, int>
    var wallet: map<string, int>
    var xp: map<string, int>
    var levelUps: map<string, int>
    var boardUpdates: map<string, int>

    /** An event starts with the stored tracks and boards and nothing reported. */
    constructor (tracks: map<string, Track>, boards: map<string, int>)
      ensures Value() == Projected(tracks, boards, map[], map[], map[], map[])
    {
      this.tracks, this.boards := tracks, boards;
      wallet, xp, levelUps, boardUpdates := map[], map[], map[], map[];
    }

    function Value(): Projected
      reads this
    {
      Projected(tracks, boards, wallet, xp, levelUps, boardUpdates)
    }

    method FindModel(defs: seq<TrackDef>, track: string) returns (model: Option<Progression.Model>)
      ensures model == ModelOf(defs, track)
    {
      for i := 0 to |defs|
        invariant ModelOf(defs, track) == ModelOf(defs[i..], track)
      {
        if defs[i].id == track || defs[i].name == track { return Some(defs[i].model); }
      }
      model := None;
    }

    method Award(cfg: Config, track: string, amount: int)
      modifies this
      ensures Value() == Apply(cfg, old(Value()), AwardXp(track, amount))
    {
      var model := FindModel(cfg.tracks, track);
      var t := if track in tracks then tracks[track] else Track(0, 0, 0);
      var total := Max(t.xp + amount, 0);
      xp := Bump(xp, track, amount);
      if model.Some? {
        var level := Progression.ComputeLevel(model.value, total);
        tracks := tracks[track := Track(total, level, Max(t.highest, level))];
        if level > t.level { levelUps := levelUps[track := level]; }
      } else {
        tracks := tracks[track := t.(xp := total)];
      }
      PublishAll(cfg.boards, track, total);
    }

    method PublishAll(defs: seq<Board>, track: string, total: int)
      modifies `boards, `boardUpdates
      ensures boards == Publish(defs, track, total, old(boards))
      ensures boardUpdates == Publish(defs, track, total, old(boardUpdates))
    {
      for i := 0 to |defs|
        invariant boards == Publish(defs[..i], track, total, old(boards))
        invariant boardUpdates == Publish(defs[..i], track, total, old(boardUpdates))
      {
        hide Watches;
        assert defs[..i + 1][..i] == defs[..i];
        if Watches(defs[i], track) {
          boards := boards[defs[i].id := total];
          boardUpdates := boardUpdates[defs[i].id := total];
        }
      }
      assert defs[..|defs|] == defs;
    }

    method ApplyProjection(cfg: Config, commands: seq<Command>)
      modifies this
      ensures Value() == Project(cfg, old(Value()), commands)
    {
      for i := 0 to |commands|
        invariant Value() == Project(cfg, old(Value()), commands[..i])
      {
        assert commands[..i + 1][..i] == commands[..i];
        match commands[i]
        case AwardXp(track, amount) => Award(cfg, track, amount);
        case AddCurrency(currency, amount) => wallet := Bump(wallet, currency, amount);
        case SpendCurrency(currency, amount) => wallet := Bump(wallet, currency, -amount);
        case UpdateLeaderboard(board, delta) =>
          var next := Get(boards, board) + delta;
          boards := boards[board := next];
          boardUpdates := boardUpdates[board := next];
        case Other =>
      }
      assert commands[..|commands|] == commands;
    }

    /** Rules, challenges and workflows command first, then achievements, judged on the state they leave. */
    method Settle(cfg: Config, commands: seq<Command>, achievements: Projected -> seq<Command>, dryRun: bool)
      returns (all: seq<Command>)
      modifies this
      ensures all == commands + achievements(if dryRun then old(Value()) else Project(cfg, old(Value()), commands))
      ensures Value() == if dryRun then old(Value()) else Project(cfg, old(Value()), all)
    {
      if !dryRun { ApplyProjection(cfg, commands); }
      var rewards := achievements(Value());
      ProjectSum(cfg, old(Value()), commands, rewards);
      if rewards != [] && !dryRun { ApplyProjection(cfg, rewards); }
      all := commands + rewards;
    }
  }

  lemma {:induction false} ProjectSum(cfg: Config, s: Projected, a: seq<Command>, b: seq<Command>)
    ensures Project(cfg, s, a + b) == Project(cfg, Project(cfg, s, a), b)
  {
    hide Apply;
    if b == [] {
      assert a + b == a;
    } else {
      ProjectSum(cfg, s, a, b[..|b| - 1]);
      assert (a + b)[..|a + b| - 1] == a + b[..|b| - 1];
    }
  }

  // ---- Deltas are sums -------------------------------------------------------------------

  function WalletPart(cmd: Command, currency: string): int {
    match cmd
    case AddCurrency(c, amount) => if c == currency then amount else 0
    case SpendCurrency(c, amount) => if c == currency then -amount else 0
    case _ => 0
  }

  function WalletSum(commands: seq<Command>, currency: string): int {
    if commands == [] then 0
    else WalletSum(commands[..|commands| - 1], currency) + WalletPart(commands[|commands| - 1], currency)
  }

  predicate Moves(cmd: Command, currency: string) {
    (cmd.AddCurrency? || cmd.SpendCurrency?) && cmd.currency == currency
  }

  ghost predicate SomeMoves(commands: seq<Command>, currency: string) {
    exists i :: 0 <= i < |commands| && Moves(commands[i], currency)
  }

  /** The amounts awarded on a track, in order. */
  function Awards(commands: seq<Command>, track: string): seq<int> {
    if commands == [] then []
    else
      var cmd := commands[|commands| - 1];
      Awards(commands[..|commands| - 1], track) + if cmd.AwardXp? && cmd.track == track then [cmd.amount] else []
  }

  function Sum(amounts: seq<int>): int {
    if amounts == [] then 0 else Sum(amounts[..|amounts| - 1]) + amounts[|amounts| - 1]
  }

  predicate AwardsOn(cmd: Command, track: string) { cmd.AwardXp? && cmd.track == track }

  /** One command's part in every report, and in the experience of one track. */
  lemma ApplyParts(cfg: Config, s: Projected, cmd: Command, key: string)
    ensures var r := Apply(cfg, s, cmd);
            && Get(r.wallet, key) == Get(s.wallet, key) + WalletPart(cmd, key)
            && (key in r.wallet <==> key in s.wallet || Moves(cmd, key))
            && Get(r.xp, key) == Get(s.xp, key) + (if AwardsOn(cmd, key) then cmd.amount else 0)
            && (key in r.xp <==> key in s.xp || AwardsOn(cmd, key))
            && TrackOf(r, key).xp
               == if AwardsOn(cmd, key) then Max(TrackOf(s, key).xp + cmd.amount, 0) else TrackOf(s, key).xp
  {
    hide Publish, ModelOf;
  }

  /** Reported wallet and experience deltas are the signed sums over the commands. */
  lemma {:induction false} DeltasAreSums(cfg: Config, s: Projected, commands: seq<Command>, key: string)
    ensures var r := Project(cfg, s, commands);
            && Get(r.wallet, key) == Get(s.wallet, key) + WalletSum(commands, key)
            && Get(r.xp, key) == Get(s.xp, key) + Sum(Awards(commands, key))
  {
    hide Apply, WalletPart, Get;
    if commands == [] {
    } else {
      var n := |commands| - 1;
      DeltasAreSums(cfg, s, commands[..n], key);
      ApplyParts(cfg, Project(cfg, s, commands[..n]), commands[n], key);
      AwardsLast(commands, key);
    }
  }

  lemma AwardsLast(commands: seq<Command>, track: string)
    requires commands != []
    ensures var n := |commands| - 1;
            var before := Awards(commands[..n], track);
            Awards(commands, track) == (if AwardsOn(commands[n], track) then before + [commands[n].amount] else before)
            && Sum(Awards(commands, track))
               == Sum(before) + if AwardsOn(commands[n], track) then commands[n].amount else 0
  {
    var n := |commands| - 1;
    var before := Awards(commands[..n], track);
    if AwardsOn(commands[n], track) {
      assert (before + [commands[n].amount])[..|before|] == before;
    } else {
      assert before + [] == before;
    }
  }

  lemma NoneMoves(key: string)
    ensures !SomeMoves([], key)
  {
  }

  /** Only currencies that some command moves, and tracks that some command awards, are reported. */
  lemma {:induction false} DeltasAreNamed(cfg: Config, s: Projected, commands: seq<Command>, key: string)
    ensures var r := Project(cfg, s, commands);
            && (key in r.wallet <==> key in s.wallet || SomeMoves(commands, key))
            && (key in r.xp <==> key in s.xp || Awards(commands, key) != [])
  {
    hide Apply, Moves, SomeMoves;
    if commands == [] {
      NoneMoves(key);
    } else {
      var n := |commands| - 1;
      DeltasAreNamed(cfg, s, commands[..n], key);
      ApplyParts(cfg, Project(cfg, s, commands[..n]), commands[n], key);
      AwardsLast(commands, key);
      MovesLast(commands, key);
    }
  }

  lemma MovesLast(commands: seq<Command>, key: string)
    requires commands != []
    ensures var n := |commands| - 1;
            SomeMoves(commands, key) <==> SomeMoves(commands[..n], key) || Moves(commands[n], key)
  {
    hide Moves;
    var n := |commands| - 1;
    if SomeMoves(commands, key) {
      var i :| 0 <= i < |commands| && Moves(commands[i], key);
      if i < n { assert Moves(commands[..n][i], key); }
    }
    if SomeMoves(commands[..n], key) {
      var i :| 0 <= i < n && Moves(commands[..n][i], key);
      assert Moves(commands[i], key);
    }
  }

  /** In a run that is not dry, the deltas cover every emitted command, those of achievements included. */
  lemma OutcomeConserves(cfg: Config, tracks: map<string, Track>, boards: map<string, int>,
                         commands: seq<Command>, achievements: Projected -> seq<Command>, key: string)
    ensures var s := Projected(tracks, boards, map[], map[], map[], map[]);
            var all := commands + achievements(Project(cfg, s, commands));
            var r := Project(cfg, Project(cfg, s, commands), achievements(Project(cfg, s, commands)));
            && Get(r.wallet, key) == WalletSum(all, key)
            && Get(r.xp, key) == Sum(Awards(all, key))
            && TrackOf(r, key).xp == Reflected(TrackOf(s, key).xp, Awards(all, key))
  {
    hide Project, WalletSum, Awards, Sum;
    var s := Projected(tracks, boards, map[], map[], map[], map[]);
    var rewards := achievements(Project(cfg, s, commands));
    ProjectSum(cfg, s, commands, rewards);
    DeltasAreSums(cfg, s, commands + rewards, key);
    XpReflected(cfg, s, commands + rewards, key);
  }

  // ---- Experience never goes below zero --------------------------------------------------

  /** The least running total, or 0 when none is below it. */
  function LeastPrefix(start: int, amounts: seq<int>): int {
    if amounts == [] then 0 else Min(LeastPrefix(start, amounts[..|amounts| - 1]), start + Sum(amounts))
  }

  function Reflected(start: int, amounts: seq<int>): int { start + Sum(amounts) - LeastPrefix(start, amounts) }

  lemma {:induction false} LeastPrefixIs(start: int, amounts: seq<int>)
    ensures LeastPrefix(start, amounts) <= 0
    ensures forall k :: 0 < k <= |amounts| ==> LeastPrefix(start, amounts) <= start + Sum(amounts[..k])
    ensures LeastPrefix(start, amounts) == 0
            || exists k :: 0 < k <= |amounts| && LeastPrefix(start, amounts) == start + Sum(amounts[..k])
  {
    if amounts == [] {
    } else {
      var n := |amounts| - 1;
      LeastPrefixIs(start, amounts[..n]);
      assert amounts[..n + 1] == amounts;
      forall k | 0 < k <= n ensures amounts[..n][..k] == amounts[..k] { }
      if k :| 0 < k <= n && LeastPrefix(start, amounts[..n]) == start + Sum(amounts[..n][..k]) {
        assert amounts[..n][..k] == amounts[..k];
      }
    }
  }

  lemma ReflectedStep(start: int, amounts: seq<int>, amount: int)
    ensures Reflected(start, amounts + [amount]) == Max(Reflected(start, amounts) + amount, 0)
  {
    assert (amounts + [amount])[..|amounts|] == amounts;
  }

  /** A track's experience is the total of its awards, lifted by the least running total when that is negative. */
  lemma {:induction false} XpReflected(cfg: Config, s: Projected, commands: seq<Command>, track: string)
    ensures TrackOf(Project(cfg, s, commands), track).xp == Reflected(TrackOf(s, track).xp, Awards(commands, track))
  {
    hide Apply, Reflected, TrackOf;
    if commands == [] {
      NoAwards(TrackOf(s, track).xp);
    } else {
      var n := |commands| - 1;
      XpReflected(cfg, s, commands[..n], track);
      ApplyParts(cfg, Project(cfg, s, commands[..n]), commands[n], track);
      AwardsLast(commands, track);
      if AwardsOn(commands[n], track) {
        ReflectedStep(TrackOf(s, track).xp, Awards(commands[..n], track), commands[n].amount);
      }
    }
  }

  lemma NoAwards(start: int)
    ensures Reflected(start, []) == start
  {
  }

  /** The level after the first `k` awards. */
  function LevelAfter(m: Progression.Model, start: int, amounts: seq<int>, k: nat): int
    requires k <= |amounts|
  {
    Progression.LevelFor(m, Reflected(start, amounts[..k]))
  }

  ghost predicate RunningMax(m: Progression.Model, t: Track, amounts: seq<int>, r: Track) {
    && r.highest >= t.highest
    && (forall k :: 0 < k <= |amounts| ==> r.highest >= LevelAfter(m, t.xp, amounts, k))
    && (r.highest == t.highest || exists k :: 0 < k <= |amounts| && r.highest == LevelAfter(m, t.xp, amounts, k))
    && (amounts != [] ==> r.level == LevelAfter(m, t.xp, amounts, |amounts|))
    && (amounts == [] ==> r == t)
  }

  lemma RunningMaxStep(m: Progression.Model, t: Track, amounts: seq<int>, r: Track, amount: int)
    requires RunningMax(m, t, amounts, r) && r.xp == Reflected(t.xp, amounts)
    ensures RunningMax(m, t, amounts + [amount], Awarded(Some(m), r, amount))
  {
    hide Reflected;
    var all, next := amounts + [amount], Awarded(Some(m), r, amount);
    ReflectedStep(t.xp, amounts, amount);
    assert all[..|all|] == all;
    assert next.level == LevelAfter(m, t.xp, all, |all|);
    forall k | 0 < k <= |amounts| ensures LevelAfter(m, t.xp, all, k) == LevelAfter(m, t.xp, amounts, k) {
      assert all[..k] == amounts[..k];
    }
    if next.highest == r.highest && r.highest != t.highest {
      var k :| 0 < k <= |amounts| && r.highest == LevelAfter(m, t.xp, amounts, k);
      assert r.highest == LevelAfter(m, t.xp, all, k);
    }
  }

  /** A track's level is that of its experience, and `highest` the greatest level it passed through. */
  lemma {:induction false} HighestIsRunningMax(cfg: Config, s: Projected, commands: seq<Command>, track: string)
    requires ModelOf(cfg.tracks, track).Some?
    ensures RunningMax(ModelOf(cfg.tracks, track).value, TrackOf(s, track), Awards(commands, track),
                       TrackOf(Project(cfg, s, commands), track))
  {
    hide Publish, Bump, ModelOf, RunningMax, Awarded;
    var m, t := ModelOf(cfg.tracks, track).value, TrackOf(s, track);
    if commands == [] {
      NoAwardsMax(m, t);
    } else {
      var n := |commands| - 1;
      HighestIsRunningMax(cfg, s, commands[..n], track);
      if commands[n].AwardXp? && commands[n].track == track {
        XpReflected(cfg, s, commands[..n], track);
        var before := TrackOf(Project(cfg, s, commands[..n]), track);
        RunningMaxStep(m, t, Awards(commands[..n], track), before, commands[n].amount);
      } else {
        assert TrackOf(Project(cfg, s, commands), track) == TrackOf(Project(cfg, s, commands[..n]), track);
        AwardsLast(commands, track);
      }
    }
  }

  lemma NoAwardsMax(m: Progression.Model, t: Track)
    ensures RunningMax(m, t, [], t)
  {
  }

  // ---- Level-ups -------------------------------------------------------------------------

  /** The level before any award, or after the first `k`. */
  function LevelAt(m: Progression.Model, t: Track, amounts: seq<int>, k: nat): int
    requires k <= |amounts|
  {
    if k == 0 then t.level else LevelAfter(m, t.xp, amounts, k)
  }

  ghost predicate Rises(m: Progression.Model, t: Track, amounts: seq<int>, k: nat)
    requires k <= |amounts|
  {
    k > 0 && LevelAt(m, t, amounts, k) > LevelAt(m, t, amounts, k - 1)
  }

  /** Reported when some award raised the level, with the level the last such award reached. */
  ghost predicate ReportsRise(m: Progression.Model, t: Track, amounts: seq<int>, ups: map<string, int>, track: string) {
    if track in ups then
      exists k :: 0 < k <= |amounts| && Rises(m, t, amounts, k) && ups[track] == LevelAt(m, t, amounts, k)
                  && forall j :: k < j <= |amounts| ==> !Rises(m, t, amounts, j)
    else forall k :: 0 < k <= |amounts| ==> !Rises(m, t, amounts, k)
  }

  lemma RisesPrefix(m: Progression.Model, t: Track, amounts: seq<int>, amount: int, k: nat)
    requires k <= |amounts|
    ensures LevelAt(m, t, amounts + [amount], k) == LevelAt(m, t, amounts, k)
    ensures Rises(m, t, amounts + [amount], k) == Rises(m, t, amounts, k)
  {
    assert (amounts + [amount])[..k] == amounts[..k];
    if k > 0 { assert (amounts + [amount])[..k - 1] == amounts[..k - 1]; }
  }

  lemma ReportsStep(
      m: Progression.Model, t: Track, amounts: seq<int>, amount: int, ups: map<string, int>, track: string)
    requires ReportsRise(m, t, amounts, ups, track)
    ensures var all, n := amounts + [amount], |amounts|;
            var level := LevelAt(m, t, all, n + 1);
            ReportsRise(m, t, all, if level > LevelAt(m, t, amounts, n) then ups[track := level] else ups, track)
  {
    hide Rises, LevelAt;
    var all, n := amounts + [amount], |amounts|;
    forall k | 0 <= k <= n
      ensures LevelAt(m, t, all, k) == LevelAt(m, t, amounts, k) && Rises(m, t, all, k) == Rises(m, t, amounts, k)
    {
      RisesPrefix(m, t, amounts, amount, k);
    }
    assert Rises(m, t, all, n + 1) <==> LevelAt(m, t, all, n + 1) > LevelAt(m, t, all, n) by { LastRise(m, t, all); }
  }

  lemma LastRise(m: Progression.Model, t: Track, amounts: seq<int>)
    requires amounts != []
    ensures var n := |amounts|; Rises(m, t, amounts, n) <==> LevelAt(m, t, amounts, n) > LevelAt(m, t, amounts, n - 1)
  {
  }

  /** A level-up is reported exactly for the tracks whose level some award raised, with the level last reached so. */
  lemma {:induction false} LevelUpsReported(cfg: Config, s: Projected, commands: seq<Command>, track: string)
    requires ModelOf(cfg.tracks, track).Some? && track !in s.levelUps
    ensures ReportsRise(ModelOf(cfg.tracks, track).value, TrackOf(s, track), Awards(commands, track),
                        Project(cfg, s, commands).levelUps, track)
  {
    hide Publish, Bump, ModelOf, ReportsRise, Rises, LevelAt, Reflected, Progression.LevelFor;
    var m, t := ModelOf(cfg.tracks, track).value, TrackOf(s, track);
    if commands == [] {
      NothingReported(m, t, s.levelUps, track);
    } else {
      var n := |commands| - 1;
      var before, amounts := Project(cfg, s, commands[..n]), Awards(commands[..n], track);
      LevelUpsReported(cfg, s, commands[..n], track);
      AwardsLast(commands, track);
      if AwardsOn(commands[n], track) {
        AwardLevels(cfg, s, commands[..n], track, commands[n].amount);
        ReportsStep(m, t, amounts, commands[n].amount, before.levelUps, track);
      } else {
        OtherReports(cfg, before, commands[n], track);
        ReportsSame(m, t, amounts, before.levelUps, Project(cfg, s, commands).levelUps, track);
      }
    }
  }

  lemma NothingReported(m: Progression.Model, t: Track, ups: map<string, int>, track: string)
    requires track !in ups
    ensures ReportsRise(m, t, [], ups, track)
  {
  }

  lemma OtherReports(cfg: Config, s: Projected, cmd: Command, track: string)
    requires !AwardsOn(cmd, track)
    ensures var r := Apply(cfg, s, cmd).levelUps;
            (track in r <==> track in s.levelUps) && (track in r ==> r[track] == s.levelUps[track])
  {
  }

  lemma ReportsSame(
      m: Progression.Model, t: Track, amounts: seq<int>, a: map<string, int>, b: map<string, int>, track: string)
    requires ReportsRise(m, t, amounts, a, track)
    requires (track in a <==> track in b) && (track in a ==> a[track] == b[track])
    ensures ReportsRise(m, t, amounts, b, track)
  {
    hide Rises, LevelAt;
  }

  /** The levels an award moves between, said by the awards alone. */
  lemma AwardLevels(cfg: Config, s: Projected, commands: seq<Command>, track: string, amount: int)
    requires ModelOf(cfg.tracks, track).Some?
    ensures var m, t, amounts := ModelOf(cfg.tracks, track).value, TrackOf(s, track), Awards(commands, track);
            var before := TrackOf(Project(cfg, s, commands), track);
            && before.level == LevelAt(m, t, amounts, |amounts|)
            && Awarded(Some(m), before, amount).level == LevelAt(m, t, amounts + [amount], |amounts| + 1)
  {
    hide Project, Reflected, ModelOf, Progression.LevelFor;
    var m, t, amounts := ModelOf(cfg.tracks, track).value, TrackOf(s, track), Awards(commands, track);
    HighestIsRunningMax(cfg, s, commands, track);
    XpReflected(cfg, s, commands, track);
    ReflectedStep(t.xp, amounts, amount);
    assert (amounts + [amount])[..|amounts| + 1] == amounts + [amount];
  }

  // ---- Which model a track has, and its first award --------------------------------------

  /** The first definition with this id or name decides; without one a track has no levels. */
  lemma {:induction false} ModelIs(tracks: seq<TrackDef>, track: string, i: nat)
    requires i <= |tracks|
    requires forall j :: 0 <= j < i ==> tracks[j].id != track && tracks[j].name != track
    requires i < |tracks| ==> tracks[i].id == track || tracks[i].name == track
    ensures ModelOf(tracks, track) == if i < |tracks| then Some(tracks[i].model) else None
  {
    if i == 0 {
    } else {
      ModelIs(tracks[1..], track, i - 1);
    }
  }

  /** An actor new to a track starts from nothing: no experience, level 0. */
  lemma FirstAward(cfg: Config, s: Projected, track: string, amount: int)
    requires track !in s.tracks
    ensures var r, model := Apply(cfg, s, AwardXp(track, amount)), ModelOf(cfg.tracks, track);
            var xp := if amount < 0 then 0 else amount;
            && track in r.tracks && r.tracks[track].xp == xp
            && (model.None? ==> r.tracks[track] == Track(xp, 0, 0) && r.levelUps == s.levelUps)
            && (model.Some? ==>
                  var level := Progression.LevelFor(model.value, xp);
                  && r.tracks[track].level == level && r.tracks[track].highest == (if level < 0 then 0 else level)
                  && r.levelUps == if level > 0 then s.levelUps[track := level] else s.levelUps)
  {
    hide Publish, ModelOf, Progression.LevelFor;
  }

  // ---- Boards ----------------------------------------------------------------------------

  lemma {:induction false} PublishIs(boards: seq<Board>, track: string, xp: int, scores: map<string, int>, id: string)
    ensures Get(Publish(boards, track, xp, scores), id)
            == if exists i :: 0 <= i < |boards| && boards[i].id == id && Watches(boards[i], track) then xp
               else Get(scores, id)
  {
    hide Watches;
    if boards == [] {
    } else {
      var n := |boards| - 1;
      PublishIs(boards[..n], track, xp, scores, id);
      if i :| 0 <= i < n && boards[..n][i].id == id && Watches(boards[..n][i], track) {
        assert boards[i].id == id && Watches(boards[i], track);
      }
      if i :| 0 <= i < |boards| && boards[i].id == id && Watches(boards[i], track) {
        if i < n { assert boards[..n][i].id == id && Watches(boards[..n][i], track); }
      }
    }
  }

  /** Some experience board of this id is for the track, or for none in particular. */
  ghost predicate Watched(boards: seq<Board>, id: string, track: string) {
    exists i ::
      0 <= i < |boards| && boards[i].id == id && boards[i].xp && (boards[i].track == "" || boards[i].track == track)
  }

  predicate Bumps(cmd: Command, id: string) { cmd.UpdateLeaderboard? && cmd.board == id }

  /** What the commands add to the board by naming it. */
  function BoardDeltas(commands: seq<Command>, id: string): int {
    if commands == [] then 0
    else
      var cmd := commands[|commands| - 1];
      BoardDeltas(commands[..|commands| - 1], id) + if Bumps(cmd, id) then cmd.delta else 0
  }

  /** How many commands there are up to the last award the board watches; zero when it watches none. */
  ghost function LastWatched(boards: seq<Board>, id: string, commands: seq<Command>): (k: nat)
    ensures k <= |commands|
    ensures k > 0 ==> commands[k - 1].AwardXp? && Watched(boards, id, commands[k - 1].track)
    ensures forall i :: k <= i < |commands| ==> !(commands[i].AwardXp? && Watched(boards, id, commands[i].track))
  {
    if commands == [] then 0
    else
      var cmd := commands[|commands| - 1];
      if cmd.AwardXp? && Watched(boards, id, cmd.track) then |commands|
      else LastWatched(boards, id, commands[..|commands| - 1])
  }

  lemma BoardStep(cfg: Config, s: Projected, cmd: Command, id: string)
    ensures Get(Apply(cfg, s, cmd).boards, id)
            == if cmd.AwardXp? && Watched(cfg.boards, id, cmd.track) then TrackOf(Apply(cfg, s, cmd), cmd.track).xp
               else Get(s.boards, id) + if Bumps(cmd, id) then cmd.delta else 0
  {
    hide Publish, ModelOf, Awarded, Watches;
    if cmd.AwardXp? {
      var next := Awarded(ModelOf(cfg.tracks, cmd.track), TrackOf(s, cmd.track), cmd.amount);
      PublishIs(cfg.boards, cmd.track, next.xp, s.boards, id);
      WatchedIs(cfg.boards, id, cmd.track);
    }
  }

  lemma WatchedIs(boards: seq<Board>, id: string, track: string)
    ensures Watched(boards, id, track) <==>
            exists i :: 0 <= i < |boards| && boards[i].id == id && Watches(boards[i], track)
  {
  }

  /** Scores reported for an event are the boards' own, for exactly the boards its commands touched. */
  lemma {:induction false} BoardUpdatesReported(cfg: Config, s: Projected, commands: seq<Command>, id: string)
    requires s.boardUpdates == map[]
    ensures var r := Project(cfg, s, commands);
            && (id in r.boardUpdates <==> exists c :: c in commands && Touches(cfg.boards, c, id))
            && (id in r.boardUpdates ==> id in r.boards && r.boardUpdates[id] == r.boards[id])
  {
    hide Apply, Touches;
    if commands == [] {
    } else {
      var n := |commands| - 1;
      BoardUpdatesReported(cfg, s, commands[..n], id);
      UpdateStep(cfg, Project(cfg, s, commands[..n]), commands[n], id);
      assert commands == commands[..n] + [commands[n]];
    }
  }

  /** The command names the board, or awards experience it shows. */
  ghost predicate Touches(boards: seq<Board>, cmd: Command, id: string) {
    (cmd.UpdateLeaderboard? && cmd.board == id) || (cmd.AwardXp? && Watched(boards, id, cmd.track))
  }

  lemma UpdateStep(cfg: Config, s: Projected, cmd: Command, id: string)
    requires id in s.boardUpdates ==> id in s.boards && s.boardUpdates[id] == s.boards[id]
    ensures var r := Apply(cfg, s, cmd);
            && (id in r.boardUpdates <==> id in s.boardUpdates || Touches(cfg.boards, cmd, id))
            && (id in r.boardUpdates ==> id in r.boards && r.boardUpdates[id] == r.boards[id])
  {
    hide Publish, Awarded, ModelOf, Watched;
    if cmd.AwardXp? {
      var next := Awarded(ModelOf(cfg.tracks, cmd.track), TrackOf(s, cmd.track), cmd.amount);
      PublishNames(cfg.boards, cmd.track, next.xp, s.boards, id);
      PublishNames(cfg.boards, cmd.track, next.xp, s.boardUpdates, id);
    }
  }

  lemma {:induction false} PublishNames(
      boards: seq<Board>, track: string, xp: int, scores: map<string, int>, id: string)
    ensures var r := Publish(boards, track, xp, scores);
            if Watched(boards, id, track) then id in r && r[id] == xp
            else (id in r <==> id in scores) && (id in r ==> r[id] == scores[id])
  {
    if boards == [] {
    } else {
      var n := |boards| - 1;
      PublishNames(boards[..n], track, xp, scores, id);
      assert forall i :: 0 <= i < n ==> boards[..n][i] == boards[i];
    }
  }

  lemma DeltasFrom(commands: seq<Command>, k: nat, id: string)
    requires k < |commands|
    ensures var n := |commands| - 1;
            BoardDeltas(commands[k..], id)
            == BoardDeltas(commands[..n][k..], id) + if Bumps(commands[n], id) then commands[n].delta else 0
  {
    var n := |commands| - 1;
    assert commands[k..][..n - k] == commands[..n][k..];
  }

  /**
   * After any commands a board shows the experience on the track of the last award it watches, or its old score
   * when it watched none, plus what later commands added to it by name.
   */
  lemma {:induction false} BoardScoreIs(cfg: Config, s: Projected, commands: seq<Command>, id: string)
    ensures var r, k := Project(cfg, s, commands), LastWatched(cfg.boards, id, commands);
            Get(r.boards, id) == (if k == 0 then Get(s.boards, id) else TrackOf(r, commands[k - 1].track).xp)
                                 + BoardDeltas(commands[k..], id)
  {
    hide Apply, Watched, TrackOf, Get;
    if commands == [] {
      assert commands[0..] == [];
    } else {
      var n, k := |commands| - 1, LastWatched(cfg.boards, id, commands);
      var before := Project(cfg, s, commands[..n]);
      BoardStep(cfg, before, commands[n], id);
      if k <= n {
        BoardScoreIs(cfg, s, commands[..n], id);
        DeltasFrom(commands, k, id);
        if k > 0 {
          assert commands[..n][k - 1] == commands[k - 1];
          ApplyParts(cfg, before, commands[n], commands[k - 1].track);
        }
      } else {
        assert commands[k..] == [];
      }
    }
  }

  /** The track of the last award, if any. */
  function LastAward(commands: seq<Command>): Option<string> {
    if commands == [] then None
    else
      var cmd := commands[|commands| - 1];
      if cmd.AwardXp? then Some(cmd.track) else LastAward(commands[..|commands| - 1])
  }

  lemma {:induction false} LastAwardWatched(boards: seq<Board>, board: Board, commands: seq<Command>)
    requires board in boards && board.xp && board.track == ""
    ensures var k := LastWatched(boards, board.id, commands);
            LastAward(commands) == if k == 0 then None else Some(commands[k - 1].track)
  {
    if commands == [] {
    } else {
      var cmd := commands[|commands| - 1];
      LastAwardWatched(boards, board, commands[..|commands| - 1]);
      var i :| 0 <= i < |boards| && boards[i] == board;
      assert cmd.AwardXp? ==> boards[i].id == board.id && Watches(boards[i], cmd.track);
    }
  }

  lemma {:induction false} NoDeltas(commands: seq<Command>, id: string)
    requires forall c :: c in commands ==> !Bumps(c, id)
    ensures BoardDeltas(commands, id) == 0
  {
    if commands == [] {
    } else {
      NoDeltas(commands[..|commands| - 1], id);
    }
  }

  /**
   * An experience board without a track, left alone by name, shows the track awarded last. It shows the default
   * track's experience exactly when that was the last one awarded or the two totals happen to be equal.
   */
  lemma TracklessBoardFollowsAnyTrack(cfg: Config, s: Projected, commands: seq<Command>, board: Board)
    requires board in cfg.boards && board.xp && board.track == ""
    requires forall c :: c in commands ==> !Bumps(c, board.id)
    ensures var r, last := Project(cfg, s, commands), LastAward(commands);
            match last
            case None => Get(r.boards, board.id) == Get(s.boards, board.id)
            case Some(track) =>
              && Get(r.boards, board.id) == TrackOf(r, track).xp
              && (Get(r.boards, board.id) == TrackOf(r, "default").xp <==>
                    track == "default" || TrackOf(r, track).xp == TrackOf(r, "default").xp)
  {
    hide Project, Get, TrackOf, LastAward, LastWatched;
    var k := LastWatched(cfg.boards, board.id, commands);
    BoardScoreIs(cfg, s, commands, board.id);
    LastAwardWatched(cfg.boards, board, commands);
    NoDeltas(commands[k..], board.id);
  }

  /** Five points on another track replace the ten of the default one. */
  lemma SideTrackTakesBoard()
    ensures var cfg := Config([], [Board("b", true, "")]);
            var s := Projected(map[], map[], map[], map[], map[], map[]);
            var r := Project(cfg, s, [AwardXp("default", 10), AwardXp("side", 5)]);
            Get(r.boards, "b") == 5 && TrackOf(r, "default").xp == 10
  {
    hide Project, Apply, LastAward, Get;
    var board := Board("b", true, "");
    var cfg, s := Config([], [board]), Projected(map[], map[], map[], map[], map[], map[]);
    var first, both := [AwardXp("default", 10)], [AwardXp("default", 10), AwardXp("side", 5)];
    assert both[..1] == first && first[..0] == [];
    TracklessBoardFollowsAnyTrack(cfg, s, both, board);
    assert LastAward(both) == Some("side") by { LastOfTwo(); }
    TwoAwards(cfg, s, first, both);
  }

  lemma LastOfTwo()
    ensures LastAward([AwardXp("default", 10), AwardXp("side", 5)]) == Some("side")
  {
  }

  lemma TwoAwards(cfg: Config, s: Projected, first: seq<Command>, both: seq<Command>)
    requires first == [AwardXp("default", 10)] && both == [AwardXp("default", 10), AwardXp("side", 5)]
    requires s.tracks == map[]
    ensures TrackOf(Project(cfg, s, both), "default").xp == 10 && TrackOf(Project(cfg, s, both), "side").xp == 5
  {
    hide Apply;
    assert both[..1] == first && first[..0] == [] && |"default"| != |"side"|;
    assert Project(cfg, s, first) == Apply(cfg, s, first[0]);
    ApplyParts(cfg, s, first[0], "default");
    ApplyParts(cfg, s, first[0], "side");
    ApplyParts(cfg, Project(cfg, s, first), both[1], "default");
    ApplyParts(cfg, Project(cfg, s, first), both[1], "side");
  }
}
