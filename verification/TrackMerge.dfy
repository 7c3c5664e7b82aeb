/** Experience through the anonymous merge: totals add up, levels are not computed anew. */
module TrackMerge {
  import opened Common
  import opened WalletStore
  import opened Progression

  /** The row has the experience of both and the greater of their levels, present and highest. */
  predicate Unites(r: TrackRow, a: TrackRow, b: TrackRow) {
    && r.xp == a.xp + b.xp
    && r.level in {a.level, b.level} && r.level >= a.level && r.level >= b.level
    && r.highest in {a.highest, b.highest} && r.highest >= a.highest && r.highest >= b.highest
  }

  /** Every track of every user after a merge. */
  lemma MergedTrackIs(t: Tables, from: string, to: string, k: TrackKey)
    requires MayMerge(t, from, to) && !Clash(t.owned, from, to)
    ensures var tracks, source := Merge(t, from, to).tracks, (from, k.1);
            && (k.0 == from ==> k !in tracks)
            && (k.0 != from && k.0 != to ==>
                  (k in tracks <==> k in t.tracks) && (k in tracks ==> tracks[k] == t.tracks[k]))
            && (k.0 == to ==>
                  && (k in tracks <==> k in t.tracks || source in t.tracks)
                  && (k in tracks ==>
                        if source !in t.tracks then tracks[k] == t.tracks[k]
                        else if k !in t.tracks then tracks[k] == t.tracks[source]
                        else Unites(tracks[k], t.tracks[k], t.tracks[source])))
  {
    if k.0 == to && (from, k.1) in t.tracks {
      assert k in set x | x in t.tracks.Keys && x.0 == from :: (to, x.1);
    }
  }

  /** On each track the two users together have the same experience as before, all of it with the target. */
  lemma MergeConservesXp(t: Tables, from: string, to: string, track: string)
    ensures var after := Merge(t, from, to).tracks;
            && TrackOf(after, (to, track)).xp + (if from == to then 0 else TrackOf(after, (from, track)).xp)
               == TrackOf(t.tracks, (to, track)).xp + (if from == to then 0 else TrackOf(t.tracks, (from, track)).xp)
            && (MayMerge(t, from, to) && !Clash(t.owned, from, to) ==> TrackOf(after, (from, track)).xp == 0)
  {
    if MayMerge(t, from, to) && !Clash(t.owned, from, to) {
      MergedTrackIs(t, from, to, (from, track));
      MergedTrackIs(t, from, to, (to, track));
    }
  }

  /** A row's level is the one its experience is worth. */
  predicate InStep(m: Model, r: TrackRow) { r.level == LevelFor(m, r.xp) }

  lemma DivMonotone(a: int, b: int, k: int)
    requires k > 0 && a <= b
    ensures a / k <= b / k
  {
    DivAtLeast(a, k, a / k);
    DivAtLeast(b, k, a / k);
  }

  lemma SameQuotient(x: int, y: int, k: int)
    requires k > 0 && y >= 0
    ensures (x + y) / k == x / k <==> x % k + y < k
  {
    var q := x / k;
    DivAtLeast(x + y, k, q);
    DivAtLeast(x + y, k, q + 1);
    assert x == q * k + x % k;
    Difference(q, 0, k);
  }

  /** On a linear track the joined level is right exactly when the smaller total does not reach the next threshold. */
  lemma JoinedLevelLinear(k: int, a: TrackRow, b: TrackRow)
    requires k > 0 && 0 <= a.xp && 0 <= b.xp && InStep(Linear(k), a) && InStep(Linear(k), b)
    ensures InStep(Linear(k), Joined(a, b)) <==> Max(a.xp, b.xp) % k + Min(a.xp, b.xp) < k
    ensures Joined(a, b).level <= LevelFor(Linear(k), Joined(a, b).xp)
  {
    var high, low := Max(a.xp, b.xp), Min(a.xp, b.xp);
    DivMonotone(low, high, k);
    DivMonotone(high, high + low, k);
    SameQuotient(high, low, k);
  }

  lemma ClimbMonotone(base: int, factor: real, x: int, y: int)
    requires base > 0 && factor > 1.0 && x <= y
    ensures LevelFor(Exponential(base, factor), x) <= LevelFor(Exponential(base, factor), y)
  {
    hide Geo, ClimbFrom;
    var n := LevelFor(Exponential(base, factor), x);
    ClimbIs(base, factor, x, 0);
    ClimbIs(base, factor, y, 0);
    if n > 0 {
      ExponentialAdjoint(base, factor, x, n);
      ExponentialAdjoint(base, factor, y, n);
    }
  }

  /** On an exponential track: right when the sum stays below the next geometric threshold, or no level is left. */
  lemma JoinedLevelExponential(base: int, factor: real, a: TrackRow, b: TrackRow)
    requires base > 0 && factor > 1.0 && 0 <= a.xp && 0 <= b.xp
    requires InStep(Exponential(base, factor), a) && InStep(Exponential(base, factor), b)
    ensures var j := Joined(a, b);
            0 <= j.level <= MAX_LEVEL
            && (InStep(Exponential(base, factor), j) <==>
                  j.level == MAX_LEVEL || (j.xp as real) < Geo(base, factor, j.level + 1))
  {
    hide Geo, ClimbFrom;
    var j := Joined(a, b);
    ClimbIs(base, factor, a.xp, 0);
    ClimbIs(base, factor, b.xp, 0);
    ClimbIs(base, factor, j.xp, 0);
    ClimbMonotone(base, factor, a.xp, j.xp);
    ClimbMonotone(base, factor, b.xp, j.xp);
    if j.level < MAX_LEVEL { ExponentialAdjoint(base, factor, j.xp, j.level + 1); }
  }

  predicate OverCut(value: int -> Option<real>, xp: int) { value(xp).Some? && value(xp).value >= 1000000000000.0 }

  lemma UnderCut(value: int -> Option<real>, x: int, y: int)
    requires Monotone(value) && 0 <= x <= y && !OverCut(value, y)
    ensures 0 <= FormulaLevel(value, x) == SearchLevel(value, x) <= SearchLevel(value, y) == FormulaLevel(value, y)
  {
    assert SearchLevel(value, x) <= SearchLevel(value, y);
  }

  lemma OverCutIsZero(value: int -> Option<real>, xp: int)
    requires OverCut(value, xp)
    ensures FormulaLevel(value, xp) == 0
  {
  }

  /**
   * On a monotone formula track: when the sum stays below the next threshold, or the search finds no next one.
   * A sum past the search cap is compared by its own value, and one past the level cut is worth level 0.
   */
  lemma JoinedLevelFormula(value: int -> Option<real>, a: TrackRow, b: TrackRow)
    requires Monotone(value) && 0 <= a.xp && 0 <= b.xp && InStep(Formula(value), a) && InStep(Formula(value), b)
    ensures InStep(Formula(value), Joined(a, b)) <==> NoLevelGained(Formula(value), a, b)
    ensures !OverCut(value, Joined(a, b).xp) ==> Joined(a, b).level <= LevelFor(Formula(value), Joined(a, b).xp)
  {
    hide SearchLevel, FormulaLevel, RequiredXp;
    var j := Joined(a, b);
    if OverCut(value, j.xp) {
      OverCutIsZero(value, j.xp);
    } else {
      UnderCut(value, a.xp, j.xp);
      UnderCut(value, b.xp, j.xp);
      if j.xp <= SEARCH_CAP {
        assert SearchLevel(value, j.xp) <= SearchLevel(value, SEARCH_CAP);
        FormulaThreshold(value, j.level + 1, j.xp);
      }
    }
  }

  /** When the sum of two rows is worth no more than the greater of their levels, for each kind of track. */
  ghost predicate NoLevelGained(m: Model, a: TrackRow, b: TrackRow) {
    var j := Joined(a, b);
    match m
    case Linear(k) => k <= 0 || Max(a.xp, b.xp) % k + Min(a.xp, b.xp) < k
    case Exponential(base, factor) =>
      base <= 0
      || if factor <= 1.0 then Max(a.xp, b.xp) % base + Min(a.xp, b.xp) < base
         else !(0 <= j.level < MAX_LEVEL) || (j.xp as real) < Geo(base, factor, j.level + 1)
    case Formula(value) =>
      if OverCut(value, j.xp) then j.level == 0
      else if j.xp > SEARCH_CAP then SearchLevel(value, j.xp) <= j.level
      else SearchLevel(value, SEARCH_CAP) <= j.level || j.xp < RequiredXp(Formula(value), j.level + 1)
  }

  /** Every track model: the joined level is the level of the sum exactly when the sum gains none. */
  lemma JoinedLevelExactly(m: Model, a: TrackRow, b: TrackRow)
    requires 0 <= a.xp && 0 <= b.xp && InStep(m, a) && InStep(m, b)
    requires m.Formula? ==> Monotone(m.value)
    ensures InStep(m, Joined(a, b)) <==> NoLevelGained(m, a, b)
  {
    hide Geo, ClimbFrom, Monotone, SearchLevel, FormulaLevel, RequiredXp;
    match m {
      case Linear(k) => if k > 0 { JoinedLevelLinear(k, a, b); }
      case Exponential(base, factor) =>
        if base > 0 {
          if factor <= 1.0 {
            JoinedLevelLinear(base, a, b);
          } else {
            JoinedLevelExponential(base, factor, a, b);
          }
        }
      case Formula(value) => JoinedLevelFormula(value, a, b);
    }
  }

  /** Two users with sixty points each on a track of a hundred a level: a hundred and twenty points, still level 0. */
  lemma JoinedLevelLags()
    ensures var a := TrackRow(60, 0, 0);
            InStep(Linear(100), a) && Joined(a, a) == TrackRow(120, 0, 0) && !InStep(Linear(100), Joined(a, a))
  {
  }
}
