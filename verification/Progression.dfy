/** Levels and the experience they require: linear, exponential and formula models. */
module Progression {
  import opened Common

  /** A formula model is its expression's value at each experience total; none for an error or a non-finite one. */
  datatype Model = Linear(xpPerLevel: int) | Exponential(base: int, factor: real) | Formula(value: int -> Option<real>)

  const MAX_LEVEL: nat := 1000
  const SEARCH_STEPS: nat := 40
  const SEARCH_CAP: int := 0x100_0000_0000

  function Pow(factor: real, n: nat): real { if n == 0 then 1.0 else factor * Pow(factor, n - 1) }

  /** What level `n + 1` costs on top of level `n`. */
  function StepCost(base: int, factor: real, n: nat): real { base as real * Pow(factor, n) }

  function Scaled(step: real, factor: real): real { step * factor }

  /** The cumulative experience that `n` levels of growing steps add up to. */
  function Geo(base: int, factor: real, n: nat): real {
    if n == 0 then 0.0 else Geo(base, factor, n - 1) + StepCost(base, factor, n - 1)
  }

  function ClimbFrom(base: int, factor: real, xp: int, level: nat): nat
    decreases MAX_LEVEL - level
  {
    if xp as real >= Geo(base, factor, level + 1) && level < MAX_LEVEL then ClimbFrom(base, factor, xp, level + 1)
    else level
  }

  /** A formula's level is cut to zero outside [0, 10^12); the search for thresholds has no upper cut. */
  function FormulaLevel(value: int -> Option<real>, xp: int): int {
    match value(xp) case Some(v) => if 0.0 <= v < 1000000000000.0 then v.Floor else 0 case None => 0
  }

  function SearchLevel(value: int -> Option<real>, xp: int): int {
    match value(xp) case Some(v) => if 0.0 <= v then v.Floor else 0 case None => 0
  }

  /** Division rounding toward minus infinity, for a positive divisor. */
  function LevelFor(m: Model, xp: int): int {
    match m
    case Linear(k) => if k <= 0 then 0 else xp / k
    case Exponential(base, factor) =>
      if base <= 0 then 0 else if factor <= 1.0 then xp / base else ClimbFrom(base, factor, xp, 0)
    case Formula(value) => FormulaLevel(value, xp)
  }

  /** The doubling search: 1, 2, 4, .. until the level is reached or the cap is. */
  function Doubled(value: int -> Option<real>, level: int, k: nat): nat
    requires k <= SEARCH_STEPS
    decreases SEARCH_STEPS - k
  {
    if SearchLevel(value, Pow2(k)) < level && k < SEARCH_STEPS then Doubled(value, level, k + 1) else Pow2(k)
  }

  function Bisected(value: int -> Option<real>, level: int, lo: int, hi: int): int
    requires lo <= hi
    decreases hi - lo
  {
    if lo == hi then lo
    else
      var mid := lo + (hi - lo) / 2;
      if SearchLevel(value, mid) < level then Bisected(value, level, mid + 1, hi) else Bisected(value, level, lo, mid)
  }

  function RequiredXp(m: Model, level: int): int {
    if level <= 0 then 0
    else
      match m
      case Linear(k) => Max(level * k, 0)
      case Exponential(base, factor) =>
        if base <= 0 then 0
        else if factor <= 1.0 then level * base
        else Max(Geo(base, factor, Min(level, MAX_LEVEL)).Floor, 0)
      case Formula(value) => Bisected(value, level, 0, Doubled(value, level, 0))
  }

  function XpToNext(m: Model, xp: int): int { Max(RequiredXp(m, LevelFor(m, xp) + 1) - xp, 0) }

  // ---- The loops -------------------------------------------------------------------------

  method Climb(base: int, factor: real, xp: int) returns (level: nat)
    ensures level == ClimbFrom(base, factor, xp, 0)
  {
    var required, next := 0.0, base as real;
    level := 0;
    assert next == StepCost(base, factor, 0);
    hide StepCost, Scaled;
    while xp as real >= required + next && level < MAX_LEVEL
      invariant level <= MAX_LEVEL && required == Geo(base, factor, level) && next == StepCost(base, factor, level)
      invariant ClimbFrom(base, factor, xp, 0) == ClimbFrom(base, factor, xp, level)
      decreases MAX_LEVEL - level
    {
      NextStep(base, factor, level);
      required := required + next;
      next := Scaled(next, factor);
      level := level + 1;
    }
  }

  lemma NextStep(base: int, factor: real, n: nat)
    ensures Scaled(StepCost(base, factor, n), factor) == StepCost(base, factor, n + 1)
  {
    assert Pow(factor, n + 1) == factor * Pow(factor, n);
  }

  method SumSteps(base: int, factor: real, n: nat) returns (total: real)
    ensures total == Geo(base, factor, n)
  {
    var step := base as real;
    total := 0.0;
    assert step == StepCost(base, factor, 0);
    hide StepCost, Scaled;
    for i := 0 to n
      invariant total == Geo(base, factor, i) && step == StepCost(base, factor, i)
    {
      NextStep(base, factor, i);
      total := total + step;
      step := Scaled(step, factor);
    }
  }

  lemma {:induction false} Pow2Grows(k: nat, n: nat)
    requires k < n
    ensures Pow2(k) < Pow2(n)
    decreases n
  {
    if k >= n - 1 {
    } else {
      Pow2Grows(k, n - 1);
    }
  }

  lemma Pow2By5(k: nat)
    ensures Pow2(k + 5) == 32 * Pow2(k)
  {
    calc { Pow2(k + 5); 2 * Pow2(k + 4); 4 * Pow2(k + 3); 8 * Pow2(k + 2); 16 * Pow2(k + 1); 32 * Pow2(k); }
  }

  lemma Pow2By10(k: nat)
    ensures Pow2(k + 10) == 1024 * Pow2(k)
  {
    hide Pow2;
    Pow2By5(k);
    Pow2By5(k + 5);
  }

  lemma SearchCapIs()
    ensures Pow2(SEARCH_STEPS) == SEARCH_CAP
  {
    assert Pow2(0) == 1;
    hide Pow2;
    Pow2By10(0);
    Pow2By10(10);
    Pow2By10(20);
    Pow2By10(30);
  }

  method FindUpper(value: int -> Option<real>, level: int) returns (hi: int)
    ensures hi == Doubled(value, level, 0)
  {
    hide SearchLevel;
    hi := 1;
    ghost var k := 0;
    SearchCapIs();
    while SearchLevel(value, hi) < level && hi < SEARCH_CAP
      invariant k <= SEARCH_STEPS && hi == Pow2(k)
      invariant Doubled(value, level, 0) == Doubled(value, level, k)
      decreases SEARCH_STEPS - k
    {
      hi := hi * 2;
      k := k + 1;
    }
    if k < SEARCH_STEPS { Pow2Grows(k, SEARCH_STEPS); }
  }

  method SearchThreshold(value: int -> Option<real>, level: int) returns (xp: int)
    ensures xp == Bisected(value, level, 0, Doubled(value, level, 0))
  {
    hide SearchLevel, Doubled;
    var lo := 0;
    var hi := FindUpper(value, level);
    while lo < hi
      invariant lo <= hi && Bisected(value, level, 0, Doubled(value, level, 0)) == Bisected(value, level, lo, hi)
    {
      var mid := lo + (hi - lo) / 2;
      if SearchLevel(value, mid) < level { lo := mid + 1; } else { hi := mid; }
    }
    xp := lo;
  }

  method ComputeLevel(m: Model, xp: int) returns (level: int)
    ensures level == LevelFor(m, xp)
  {
    match m {
      case Linear(k) => level := if k <= 0 then 0 else xp / k;
      case Exponential(base, factor) =>
        if base <= 0 { return 0; }
        if factor <= 1.0 { return xp / base; }
        level := Climb(base, factor, xp);
      case Formula(value) => level := FormulaLevel(value, xp);
    }
  }

  method ComputeRequired(m: Model, level: int) returns (xp: int)
    ensures xp == RequiredXp(m, level)
  {
    if level <= 0 { return 0; }
    match m {
      case Linear(k) => xp := Max(level * k, 0);
      case Exponential(base, factor) =>
        if base <= 0 { return 0; }
        if factor <= 1.0 { return level * base; }
        var total := SumSteps(base, factor, Min(level, MAX_LEVEL));
        xp := Max(total.Floor, 0);
      case Formula(value) => xp := SearchThreshold(value, level);
    }
  }

  // ---- Linear ----------------------------------------------------------------------------

  /** Level and threshold are adjoint; below level 0 only where the threshold's floor at zero makes no difference. */
  lemma LinearAdjoint(k: int, xp: int, n: int)
    requires k > 0
    ensures (LevelFor(Linear(k), xp) >= n <==> xp >= RequiredXp(Linear(k), n)) <==> n >= 0 || !(n * k <= xp < 0)
  {
    DivAtLeast(xp, k, n);
    if n < 0 { NegativeProduct(n, k); } else { NonNegativeProduct(n, k); }
  }

  lemma DivAtLeast(x: int, k: int, n: int)
    requires k > 0
    ensures x / k >= n <==> x >= n * k
  {
    var q := x / k;
    Difference(q, n, k);
    if q >= n { NonNegativeProduct(q - n, k); } else { NonNegativeProduct(n - q - 1, k); }
    Difference(n - 1, q, k);
  }

  lemma Difference(a: int, b: int, k: int)
    ensures a * k - b * k == (a - b) * k && (a + 1) * k == a * k + k
  {
  }

  lemma NegativeProduct(n: int, k: int)
    requires n < 0 < k
    ensures n * k < 0
  {
  }

  lemma NonNegativeProduct(n: int, k: int)
    requires n >= 0 && k > 0
    ensures n * k >= 0
  {
  }

  lemma DivIs(x: int, k: int, q: int)
    requires k > 0 && q * k <= x < q * k + k
    ensures x / k == q
  {
    DivAtLeast(x, k, q);
    DivAtLeast(x, k, q + 1);
    Difference(q, 0, k);
  }

  /** The next multiple after `x`, and the number just below it. */
  lemma NextMultiple(x: int, k: int)
    requires k > 0
    ensures (x / k + 1) * k == x + k - x % k
    ensures (x + k - x % k) / k == x / k + 1 && (x + k - x % k - 1) / k == x / k
  {
    var q, next := x / k, x + k - x % k;
    assert x == q * k + x % k;
    Difference(q, 0, k);
    DivIs(next, k, q + 1);
    DivIs(next - 1, k, q);
  }

  /** The reported remainder is exactly what the next level takes. */
  lemma LinearNext(k: int, xp: int)
    requires k > 0 && xp >= 0
    ensures var m, d := Linear(k), XpToNext(Linear(k), xp);
            d > 0 && LevelFor(m, xp + d) == LevelFor(m, xp) + 1 && LevelFor(m, xp + d - 1) == LevelFor(m, xp)
  {
    NextMultiple(xp, k);
    DivAtLeast(xp, k, 0);
    assert XpToNext(Linear(k), xp) == k - xp % k;
  }

  // ---- Exponential -----------------------------------------------------------------------

  lemma {:induction false} StepPositive(base: int, factor: real, n: nat)
    requires base > 0 && factor > 1.0
    ensures Pow(factor, n) >= 1.0 && StepCost(base, factor, n) >= 1.0
  {
    if n == 0 {
    } else {
      StepPositive(base, factor, n - 1);
      assert factor * Pow(factor, n - 1) >= Pow(factor, n - 1);
    }
    assert (base as real - 1.0) * Pow(factor, n) >= 0.0;
  }

  lemma {:induction false} GeoGrows(base: int, factor: real, a: nat, b: nat)
    requires base > 0 && factor > 1.0 && a <= b
    ensures Geo(base, factor, a) + (b - a) as real <= Geo(base, factor, b)
    decreases b
  {
    if a >= b {
    } else {
      GeoGrows(base, factor, a, b - 1);
      StepPositive(base, factor, b - 1);
    }
  }

  /** Climbing stops at the last level whose threshold is met. */
  lemma {:induction false} ClimbIs(base: int, factor: real, xp: int, level: nat)
    requires level <= MAX_LEVEL
    ensures var r := ClimbFrom(base, factor, xp, level);
            && level <= r <= MAX_LEVEL
            && (r > level ==> xp as real >= Geo(base, factor, r))
            && (r < MAX_LEVEL ==> (xp as real) < Geo(base, factor, r + 1))
    decreases MAX_LEVEL - level
  {
    if xp as real >= Geo(base, factor, level + 1) && level < MAX_LEVEL { ClimbIs(base, factor, xp, level + 1); }
  }

  lemma ExponentialAdjoint(base: int, factor: real, xp: int, n: nat)
    requires base > 0 && factor > 1.0 && 1 <= n <= MAX_LEVEL
    ensures LevelFor(Exponential(base, factor), xp) >= n <==> xp as real >= Geo(base, factor, n)
  {
    ClimbIs(base, factor, xp, 0);
    var r := ClimbFrom(base, factor, xp, 0);
    if r >= n { GeoGrows(base, factor, n, r); } else { GeoGrows(base, factor, r + 1, n); }
  }

  /** The threshold is rounded down, so it reaches its level exactly when the sum is whole; one more always does. */
  lemma ExponentialThreshold(base: int, factor: real, n: nat)
    requires base > 0 && factor > 1.0 && 1 <= n <= MAX_LEVEL
    ensures var m := Exponential(base, factor);
            var required := RequiredXp(m, n);
            && (LevelFor(m, required) >= n <==> Geo(base, factor, n) == required as real)
            && LevelFor(m, required + 1) >= n && LevelFor(m, required - 1) < n
  {
    hide LevelFor;
    var m := Exponential(base, factor);
    GeoGrows(base, factor, 0, n);
    var required := Geo(base, factor, n).Floor;
    assert RequiredXp(m, n) == required;
    ExponentialAdjoint(base, factor, required, n);
    ExponentialAdjoint(base, factor, required + 1, n);
    ExponentialAdjoint(base, factor, required - 1, n);
  }

  /** Base 1, factor 1.5: two levels cost 2.5, the threshold says 2, and 2 is only enough for the first. */
  lemma ThresholdFallsShort()
    ensures RequiredXp(Exponential(1, 1.5), 2) == 2 && LevelFor(Exponential(1, 1.5), 2) < 2
  {
    assert Pow(1.5, 1) == 1.5 * Pow(1.5, 0);
    assert Geo(1, 1.5, 1) == Geo(1, 1.5, 0) + StepCost(1, 1.5, 0);
    assert Geo(1, 1.5, 2) == Geo(1, 1.5, 1) + StepCost(1, 1.5, 1);
    assert Geo(1, 1.5, 2) == 2.5;
    ExponentialThreshold(1, 1.5, 2);
  }

  /** The climb ends at level 1,000, reached exactly when its sum is met; thresholds beyond it are that one's. */
  lemma ExponentialCap(base: int, factor: real, xp: int, n: int)
    requires base > 0 && factor > 1.0
    ensures var m := Exponential(base, factor);
            && 0 <= LevelFor(m, xp) <= 1000
            && (LevelFor(m, xp) == 1000 <==> xp as real >= Geo(base, factor, 1000))
            && (n >= 1000 ==> RequiredXp(m, n) == RequiredXp(m, 1000))
  {
    hide Geo, ClimbFrom;
    ClimbIs(base, factor, xp, 0);
    ExponentialAdjoint(base, factor, xp, 1000);
  }

  /** Without growth an exponential track is the linear one of its base, at every level, threshold and remainder. */
  lemma FlatGrowthIsLinear(base: int, factor: real, xp: int, n: int)
    requires factor <= 1.0
    ensures var m, flat := Exponential(base, factor), Linear(base);
            LevelFor(m, xp) == LevelFor(flat, xp) && RequiredXp(m, n) == RequiredXp(flat, n)
            && XpToNext(m, xp) == XpToNext(flat, xp)
  {
    SameThreshold(base, factor, n);
    SameThreshold(base, factor, LevelFor(Linear(base), xp) + 1);
  }

  lemma SameThreshold(base: int, factor: real, n: int)
    requires factor <= 1.0
    ensures RequiredXp(Exponential(base, factor), n) == RequiredXp(Linear(base), n)
  {
    if n > 0 && base > 0 { NonNegativeProduct(n, base); }
    if n > 0 && base <= 0 { NonNegativeProduct(-base, n); }
  }

  /** A track that costs nothing has one level, 0, and no threshold; level 0 and below need nothing on any track. */
  lemma FreeTracks(m: Model, k: int, factor: real, xp: int, n: int)
    requires k <= 0
    ensures LevelFor(Linear(k), xp) == 0 == LevelFor(Exponential(k, factor), xp)
    ensures RequiredXp(Linear(k), n) == 0 == RequiredXp(Exponential(k, factor), n)
    ensures n <= 0 ==> RequiredXp(m, n) == 0
  {
    if n > 0 { NonNegativeProduct(-k, n); }
  }

  /** The remainder is what is missing from the next threshold, or nothing. */
  lemma RemainderIs(m: Model, xp: int)
    ensures var next := RequiredXp(m, LevelFor(m, xp) + 1);
            if xp >= next then XpToNext(m, xp) == 0 else xp + XpToNext(m, xp) == next
  {
    hide RequiredXp, LevelFor;
  }

  // ---- Formula ---------------------------------------------------------------------------

  lemma {:induction false} DoubledIs(value: int -> Option<real>, level: int, k: nat)
    requires k <= SEARCH_STEPS
    ensures var hi := Doubled(value, level, k);
            0 < hi <= Pow2(SEARCH_STEPS) && (SearchLevel(value, hi) >= level || hi == Pow2(SEARCH_STEPS))
    decreases SEARCH_STEPS - k
  {
    if k >= SEARCH_STEPS {
    } else {
      Pow2Grows(k, SEARCH_STEPS);
      DoubledIs(value, level, k + 1);
    }
  }

  lemma {:induction false} BisectedIs(value: int -> Option<real>, level: int, lo: int, hi: int)
    requires lo <= hi
    ensures var r := Bisected(value, level, lo, hi);
            && lo <= r <= hi
            && (r > lo ==> SearchLevel(value, r - 1) < level)
            && (r < hi ==> SearchLevel(value, r) >= level)
    decreases hi - lo
  {
    if lo >= hi {
    } else {
      var mid := lo + (hi - lo) / 2;
      if SearchLevel(value, mid) < level {
        BisectedIs(value, level, mid + 1, hi);
      } else {
        BisectedIs(value, level, lo, mid);
      }
    }
  }

  /** For any formula, monotone or not, the search ends on a boundary: reached here, not yet reached one before. */
  lemma FormulaBoundary(value: int -> Option<real>, level: int)
    requires level > 0
    ensures var r := RequiredXp(Formula(value), level);
            && 0 <= r <= SEARCH_CAP
            && (r == 0 || SearchLevel(value, r - 1) < level)
            && (SearchLevel(value, r) >= level || r == SEARCH_CAP)
  {
    hide Bisected, Doubled, SearchLevel;
    SearchCapIs();
    DoubledIs(value, level, 0);
    BisectedIs(value, level, 0, Doubled(value, level, 0));
  }

  ghost predicate Monotone(value: int -> Option<real>) {
    forall x, y :: 0 <= x <= y ==> SearchLevel(value, x) <= SearchLevel(value, y)
  }

  /**
   * For a monotone formula the threshold is the least experience reaching the level, or the search cap when the
   * level needs more; where values stay below the level cut, that is the adjoint of the level itself.
   */
  lemma FormulaThreshold(value: int -> Option<real>, level: int, xp: int)
    requires level > 0 && 0 <= xp && Monotone(value)
    ensures var r := RequiredXp(Formula(value), level);
            && (xp <= SEARCH_CAP && SearchLevel(value, SEARCH_CAP) >= level ==>
                  (SearchLevel(value, xp) >= level <==> xp >= r))
            && (SearchLevel(value, SEARCH_CAP) < level ==> r == SEARCH_CAP)
    ensures (value(xp).Some? ==> value(xp).value < 1000000000000.0) ==>
              LevelFor(Formula(value), xp) == SearchLevel(value, xp)
  {
    hide Bisected, Doubled;
    FormulaBoundary(value, level);
    var r := RequiredXp(Formula(value), level);
    hide RequiredXp;
    if r > 0 && xp < r { assert SearchLevel(value, xp) <= SearchLevel(value, r - 1); }
    if xp >= r { assert SearchLevel(value, r) <= SearchLevel(value, xp); }
    assert SearchLevel(value, r) <= SearchLevel(value, SEARCH_CAP);
  }
}
