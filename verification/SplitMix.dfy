/** The simulation's seeded generator: every 64-bit word exactly once in each cycle of 2^64 draws. */
module SplitMix {
  import opened Common

  type Word = bv64

  // ---- Word operations, kept apart so that proofs see them one at a time -----------------

  function Plus(a: Word, b: Word): Word { a + b }

  function Shift27(z: Word): Word { z ^ (z >> 27) }
  function Shift30(z: Word): Word { z ^ (z >> 30) }
  function Shift31(z: Word): Word { z ^ (z >> 31) }
  function Unshift27(y: Word): Word { y ^ (y >> 27) ^ (y >> 54) }
  function Unshift30(y: Word): Word { y ^ (y >> 30) ^ (y >> 60) }
  function Unshift31(y: Word): Word { y ^ (y >> 31) ^ (y >> 62) }

  function Times1(z: Word): Word { z * 0xBF58_476D_1CE4_E5B9 }
  function Times2(z: Word): Word { z * 0x94D0_49BB_1331_11EB }
  function Divide1(y: Word): Word { y * 0x96DE_1B17_3F11_9089 }
  function Divide2(y: Word): Word { y * 0x3196_42B2_D24D_8EC3 }

  const GAMMA: Word := 0x9E37_79B9_7F4A_7C15
  function TimesGamma(n: Word): Word { n * 0x9E37_79B9_7F4A_7C15 }
  function DivideGamma(s: Word): Word { s * 0xF1DE_83E1_9937_733D }

  /** The output mixing applied to the state. */
  function Mix(s: Word): Word { Shift31(Times2(Shift27(Times1(Shift30(s))))) }

  /** Its inverse: shifts undone from the top bits down, multipliers by their inverses modulo 2^64. */
  function Unmix(z: Word): Word { Unshift30(Divide1(Unshift27(Divide2(Unshift31(z))))) }

  class Prng {
    var state: Word

    constructor (seed: Word)
      ensures state == seed
    {
      state := seed;
    }

    method NextU64() returns (z: Word)
      modifies this
      ensures state == Plus(old(state), GAMMA) && z == Mix(state)
    {
      hide Plus, Shift27, Shift30, Shift31, Times1, Times2;
      state := Plus(state, GAMMA);
      z := state;
      z := Times1(Shift30(z));
      z := Times2(Shift27(z));
      z := Shift31(z);
    }
  }

  // ---- The mixing is a bijection ---------------------------------------------------------

  lemma Shift27Undone(z: Word)
    ensures Unshift27(Shift27(z)) == z && Shift27(Unshift27(z)) == z
  {
    calc {
      Unshift27(Shift27(z));
      Unshift27(z ^ (z >> 27));
      (z ^ (z >> 27)) ^ ((z ^ (z >> 27)) >> 27) ^ ((z ^ (z >> 27)) >> 54);
      z;
    }
    calc {
      Shift27(Unshift27(z));
      Shift27(z ^ (z >> 27) ^ (z >> 54));
      (z ^ (z >> 27) ^ (z >> 54)) ^ ((z ^ (z >> 27) ^ (z >> 54)) >> 27);
      z;
    }
  }

  lemma Shift30Undone(z: Word)
    ensures Unshift30(Shift30(z)) == z && Shift30(Unshift30(z)) == z
  {
    calc {
      Unshift30(Shift30(z));
      Unshift30(z ^ (z >> 30));
      (z ^ (z >> 30)) ^ ((z ^ (z >> 30)) >> 30) ^ ((z ^ (z >> 30)) >> 60);
      z;
    }
    calc {
      Shift30(Unshift30(z));
      Shift30(z ^ (z >> 30) ^ (z >> 60));
      (z ^ (z >> 30) ^ (z >> 60)) ^ ((z ^ (z >> 30) ^ (z >> 60)) >> 30);
      z;
    }
  }

  lemma Shift31Undone(z: Word)
    ensures Unshift31(Shift31(z)) == z && Shift31(Unshift31(z)) == z
  {
    calc {
      Unshift31(Shift31(z));
      Unshift31(z ^ (z >> 31));
      (z ^ (z >> 31)) ^ ((z ^ (z >> 31)) >> 31) ^ ((z ^ (z >> 31)) >> 62);
      z;
    }
    calc {
      Shift31(Unshift31(z));
      Shift31(z ^ (z >> 31) ^ (z >> 62));
      (z ^ (z >> 31) ^ (z >> 62)) ^ ((z ^ (z >> 31) ^ (z >> 62)) >> 31);
      z;
    }
  }

  lemma Times1Undone(z: Word)
    ensures Divide1(Times1(z)) == z && Times1(Divide1(z)) == z
  {
    calc {
      Divide1(Times1(z));
      Divide1(z * 0xBF58_476D_1CE4_E5B9);
      (z * 0xBF58_476D_1CE4_E5B9) * 0x96DE_1B17_3F11_9089;
      z;
    }
    calc {
      Times1(Divide1(z));
      Times1(z * 0x96DE_1B17_3F11_9089);
      (z * 0x96DE_1B17_3F11_9089) * 0xBF58_476D_1CE4_E5B9;
      z;
    }
  }

  lemma Times2Undone(z: Word)
    ensures Divide2(Times2(z)) == z && Times2(Divide2(z)) == z
  {
    calc {
      Divide2(Times2(z));
      Divide2(z * 0x94D0_49BB_1331_11EB);
      (z * 0x94D0_49BB_1331_11EB) * 0x3196_42B2_D24D_8EC3;
      z;
    }
    calc {
      Times2(Divide2(z));
      Times2(z * 0x3196_42B2_D24D_8EC3);
      (z * 0x3196_42B2_D24D_8EC3) * 0x94D0_49BB_1331_11EB;
      z;
    }
  }

  lemma TimesGammaUndone(z: Word)
    ensures DivideGamma(TimesGamma(z)) == z && TimesGamma(DivideGamma(z)) == z
  {
    calc {
      DivideGamma(TimesGamma(z));
      DivideGamma(z * 0x9E37_79B9_7F4A_7C15);
      (z * 0x9E37_79B9_7F4A_7C15) * 0xF1DE_83E1_9937_733D;
      z;
    }
    calc {
      TimesGamma(DivideGamma(z));
      TimesGamma(z * 0xF1DE_83E1_9937_733D);
      (z * 0xF1DE_83E1_9937_733D) * 0x9E37_79B9_7F4A_7C15;
      z;
    }
  }

  lemma MixBijective(s: Word)
    ensures Unmix(Mix(s)) == s && Mix(Unmix(s)) == s
  {
    hide Shift27, Shift30, Shift31, Unshift27, Unshift30, Unshift31, Times1, Times2, Divide1, Divide2;
    Shift30Undone(s);
    Times1Undone(Shift30(s));
    Shift27Undone(Times1(Shift30(s)));
    Times2Undone(Shift27(Times1(Shift30(s))));
    Shift31Undone(Times2(Shift27(Times1(Shift30(s)))));
    Shift31Undone(s);
    Times2Undone(Unshift31(s));
    Shift27Undone(Divide2(Unshift31(s)));
    Times1Undone(Unshift27(Divide2(Unshift31(s))));
    Shift30Undone(Divide1(Unshift27(Divide2(Unshift31(s)))));
  }

  // ---- Counting in machine words ---------------------------------------------------------

  /** `n` modulo 2^64, by counting up. */
  function WordOf(n: nat): Word { if n == 0 then 0 else Plus(WordOf(n - 1), 1) }

  lemma PlusAssociates(a: Word, b: Word, c: Word)
    ensures Plus(Plus(a, b), c) == Plus(a, Plus(b, c))
  {
    calc { Plus(Plus(a, b), c); Plus(a + b, c); (a + b) + c; a + (b + c); Plus(a, b + c); Plus(a, Plus(b, c)); }
  }

  function Minus(a: Word, b: Word): Word { a - b }

  lemma MinusUndoesPlus(a: Word, b: Word)
    ensures Minus(Plus(a, b), a) == b && Plus(a, Minus(b, a)) == b
  {
    calc { Minus(Plus(a, b), a); Minus(a + b, a); (a + b) - a; b; }
    calc { Plus(a, Minus(b, a)); Plus(a, b - a); a + (b - a); b; }
  }

  lemma PlusZero(a: Word)
    ensures Plus(a, 0) == a && Plus(0, a) == a
  {
  }

  lemma {:induction false} WordOfSum(a: nat, b: nat)
    ensures WordOf(a + b) == Plus(WordOf(a), WordOf(b))
  {
    hide Plus;
    if b == 0 {
      PlusZero(WordOf(a));
    } else {
      WordOfSum(a, b - 1);
      PlusAssociates(WordOf(a), WordOf(b - 1), 1);
    }
  }

  /** 2^k as a word; zero from k = 64 on. */
  function Limit(k: nat): Word { if k == 0 then 1 else Plus(Limit(k - 1), Limit(k - 1)) }

  lemma {:induction false} LimitIsPower(k: nat)
    ensures WordOf(Pow2(k)) == Limit(k)
  {
    hide Plus;
    if k == 0 {
      assert WordOf(1) == Plus(WordOf(0), 1);
      PlusZero(1);
    } else {
      LimitIsPower(k - 1);
      WordOfSum(Pow2(k - 1), Pow2(k - 1));
    }
  }

  lemma {:induction false} ZeroMultiple(a: nat, t: nat)
    requires WordOf(a) == 0
    ensures WordOf(a * t) == 0
  {
    hide Plus;
    if t == 0 {
    } else {
      ZeroMultiple(a, t - 1);
      assert a * t == a * (t - 1) + a;
      WordOfSum(a * (t - 1), a);
      PlusZero(0);
    }
  }

  /** Some multiple of any number below 2^k is an odd multiple of 2^(k-1). */
  lemma {:induction false} OddMultiple(e: nat, k: nat) returns (t: nat, h: nat)
    requires 0 < e < Pow2(k)
    ensures k > 0 && e * t == Pow2(k) * h + Pow2(k - 1)
  {
    var m, p := e / 2, Pow2(k - 1);
    assert Pow2(k) == 2 * p;
    if e % 2 == 1 {
      t, h := p, m;
      OddStep(m, p);
      assert e == 2 * m + 1;
    } else {
      t, h := OddMultiple(m, k - 1);
      EvenStep(m, t, p, h, Pow2(k - 2));
      assert e == 2 * m;
    }
  }

  lemma OddStep(m: nat, p: nat)
    ensures (2 * m + 1) * p == (2 * p) * m + p
  {
  }

  lemma EvenStep(m: nat, t: nat, p: nat, h: nat, q: nat)
    requires m * t == p * h + q && p == 2 * q
    ensures (2 * m) * t == (2 * p) * h + p
  {
    calc { (2 * m) * t; 2 * (m * t); 2 * (p * h) + p; (2 * p) * h + p; }
  }

  lemma LimitDoubles(k: nat)
    ensures Limit(k + 1) == Limit(k) << 1
  {
    calc { Limit(k + 1); Plus(Limit(k), Limit(k)); Limit(k) + Limit(k); Limit(k) << 1; }
  }

  lemma LimitBy4(k: nat)
    ensures Limit(k + 4) == Limit(k) << 4
  {
    hide Limit;
    LimitDoubles(k);
    LimitDoubles(k + 1);
    LimitDoubles(k + 2);
    LimitDoubles(k + 3);
  }

  lemma LimitBy16(k: nat)
    ensures Limit(k + 16) == Limit(k) << 16
  {
    hide Limit;
    LimitBy4(k);
    LimitBy4(k + 4);
    LimitBy4(k + 8);
    LimitBy4(k + 12);
  }

  lemma LimitBy63(k: nat)
    ensures Limit(k + 63) == Limit(k) << 63 && Limit(k + 64) == 0
  {
    hide Limit;
    LimitBy16(k);
    LimitBy16(k + 16);
    LimitBy16(k + 32);
    LimitBy4(k + 48);
    LimitBy4(k + 52);
    LimitBy4(k + 56);
    LimitDoubles(k + 60);
    LimitDoubles(k + 61);
    LimitDoubles(k + 62);
    LimitDoubles(k + 63);
  }

  lemma LimitEnds(k: nat)
    requires k == 0
    ensures Limit(k + 63) != 0 && Limit(k + 64) == 0
  {
    assert Limit(k) == 1;
    hide Limit;
    LimitBy63(k);
  }

  /** Counting returns to zero after 2^64 steps and not before. */
  lemma WordOfPeriod(d: nat)
    ensures WordOf(Pow2(64)) == 0
    ensures 0 < d < Pow2(64) ==> WordOf(d) != 0
  {
    hide Plus, Pow2, WordOf, Limit;
    LimitEnds(0);
    LimitIsPower(63);
    LimitIsPower(64);
    if 0 < d < Pow2(64) && WordOf(d) == 0 {
      var t, h := OddMultiple(d, 64);
      ZeroMultiple(d, t);
      ZeroMultiple(Pow2(64), h);
      WordOfSum(Pow2(64) * h, Pow2(63));
      PlusZero(WordOf(Pow2(63)));
      assert false;
    }
  }

  // ---- Reaching every word ---------------------------------------------------------------

  function Half(w: Word): Word { w >> 1 }

  function LowBit(w: Word): Word { w & 1 }

  function Halved(w: Word, k: nat): Word { if k == 0 then w else Half(Halved(w, k - 1)) }

  lemma HalfAndLow(w: Word)
    ensures Plus(Plus(Half(w), Half(w)), LowBit(w)) == w && (LowBit(w) == 0 || LowBit(w) == 1)
  {
    calc {
      Plus(Plus(Half(w), Half(w)), LowBit(w));
      Plus(Plus(w >> 1, w >> 1), w & 1);
      ((w >> 1) + (w >> 1)) + (w & 1);
      w;
    }
  }

  /** The number whose binary digits are those of the word, as far as halving goes. */
  function Index(w: Word, k: nat): (n: nat)
    ensures n < Pow2(k)
    decreases k
  {
    if k == 0 then 0 else 2 * Index(Half(w), k - 1) + if LowBit(w) == 0 then 0 else 1
  }

  lemma {:induction false} HalvedOnce(w: Word, k: nat)
    ensures Halved(Half(w), k) == Halved(w, k + 1)
    decreases k
  {
    if k == 0 {
    } else {
      HalvedOnce(w, k - 1);
    }
  }

  lemma {:induction false} IndexOf(w: Word, k: nat)
    requires Halved(w, k) == 0
    ensures WordOf(Index(w, k)) == w
    decreases k
  {
    hide Plus, Half, LowBit;
    if k == 0 {
    } else {
      var v, n := Half(w), Index(Half(w), k - 1);
      HalvedOnce(w, k - 1);
      IndexOf(v, k - 1);
      HalfAndLow(w);
      WordOfSum(n, n);
      var b := if LowBit(w) == 0 then 0 else 1;
      WordOfOne();
      WordOfSum(n + n, b);
    }
  }

  lemma HalvedNext(w: Word, k: nat)
    ensures Halved(w, k + 1) == Halved(w, k) >> 1
  {
    calc { Halved(w, k + 1); Half(Halved(w, k)); Halved(w, k) >> 1; }
  }

  lemma HalvedBy4(w: Word, k: nat)
    ensures Halved(w, k + 4) == Halved(w, k) >> 4
  {
    hide Halved;
    HalvedNext(w, k);
    HalvedNext(w, k + 1);
    HalvedNext(w, k + 2);
    HalvedNext(w, k + 3);
  }

  lemma HalvedBy16(w: Word, k: nat)
    ensures Halved(w, k + 16) == Halved(w, k) >> 16
  {
    hide Halved;
    HalvedBy4(w, k);
    HalvedBy4(w, k + 4);
    HalvedBy4(w, k + 8);
    HalvedBy4(w, k + 12);
  }

  lemma HalvedBy64(w: Word, k: nat)
    ensures Halved(w, k + 64) == 0
  {
    hide Halved;
    HalvedBy16(w, k);
    HalvedBy16(w, k + 16);
    HalvedBy16(w, k + 32);
    HalvedBy16(w, k + 48);
  }

  lemma EveryWordCounted(w: Word) returns (n: nat)
    ensures n < Pow2(64) && WordOf(n) == w
  {
    hide Halved, WordOf, Index, Pow2;
    HalvedBy64(w, 0);
    IndexOf(w, 64);
    n := Index(w, 64);
  }

  // ---- The cycle -------------------------------------------------------------------------

  /** The state after `n` draws from `seed`, and the `n`-th word drawn. */
  function StateAfter(seed: Word, n: nat): Word {
    if n == 0 then seed else Plus(StateAfter(seed, n - 1), GAMMA)
  }

  function DrawAt(seed: Word, n: nat): Word { Mix(StateAfter(seed, n + 1)) }

  lemma TimesGammaStep(n: Word)
    ensures TimesGamma(Plus(n, 1)) == Plus(TimesGamma(n), GAMMA)
  {
    calc {
      TimesGamma(Plus(n, 1));
      TimesGamma(n + 1);
      (n + 1) * 0x9E37_79B9_7F4A_7C15;
      n * 0x9E37_79B9_7F4A_7C15 + 0x9E37_79B9_7F4A_7C15;
      Plus(n * 0x9E37_79B9_7F4A_7C15, 0x9E37_79B9_7F4A_7C15);
      Plus(TimesGamma(n), GAMMA);
    }
  }

  /** The state walks the multiples of the odd constant. */
  lemma {:induction false} StateIs(seed: Word, n: nat)
    ensures StateAfter(seed, n) == Plus(seed, TimesGamma(WordOf(n)))
  {
    hide Plus, TimesGamma;
    if n == 0 {
      TimesZero();
      PlusZero(seed);
    } else {
      StateIs(seed, n - 1);
      TimesGammaStep(WordOf(n - 1));
      PlusAssociates(seed, TimesGamma(WordOf(n - 1)), GAMMA);
    }
  }

  lemma TimesZero()
    ensures TimesGamma(0) == 0
  {
  }

  /** Within any 2^64 consecutive draws no word repeats; the next draw repeats the first. */
  lemma NoRepeatWithinPeriod(seed: Word, i: nat, j: nat)
    requires i < j
    ensures j - i < Pow2(64) ==> DrawAt(seed, i) != DrawAt(seed, j)
    ensures j - i == Pow2(64) ==> DrawAt(seed, i) == DrawAt(seed, j)
  {
    hide Mix, Plus, Minus, TimesGamma, DivideGamma, WordOf, Pow2, StateAfter;
    var a, b := WordOf(i + 1), WordOf(j + 1);
    StateIs(seed, i + 1);
    StateIs(seed, j + 1);
    WordOfSum(i + 1, j - i);
    WordOfPeriod(j - i);
    PlusZero(a);
    if DrawAt(seed, i) == DrawAt(seed, j) && j - i < Pow2(64) {
      MixBijective(StateAfter(seed, i + 1));
      MixBijective(StateAfter(seed, j + 1));
      MinusUndoesPlus(seed, TimesGamma(a));
      MinusUndoesPlus(seed, TimesGamma(b));
      TimesGammaUndone(a);
      TimesGammaUndone(b);
      MinusUndoesPlus(a, WordOf(j - i));
      MinusUndoesPlus(a, 0);
      assert false;
    }
  }

  /** Every word is drawn once in each cycle, and only once. */
  lemma EveryWordDrawnOnce(seed: Word, z: Word) returns (n: nat)
    ensures n < Pow2(64) && DrawAt(seed, n) == z
    ensures forall m :: 0 <= m < Pow2(64) && DrawAt(seed, m) == z ==> m == n
  {
    hide Mix, Unmix, Plus, Minus, TimesGamma, DivideGamma, WordOf, Pow2, StateAfter;
    var target := DivideGamma(Minus(Unmix(z), seed));
    n := EveryWordCounted(Minus(target, 1));
    MinusUndoesPlus(1, target);
    StateIs(seed, n + 1);
    WordOfSum(1, n);
    WordOfOne();
    TimesGammaUndone(Minus(Unmix(z), seed));
    MinusUndoesPlus(seed, Unmix(z));
    MixBijective(z);
    forall m | 0 <= m < Pow2(64) && DrawAt(seed, m) == z ensures m == n {
      if m < n { NoRepeatWithinPeriod(seed, m, n); }
      if n < m { NoRepeatWithinPeriod(seed, n, m); }
    }
  }

  lemma WordOfOne()
    ensures WordOf(1) == 1
  {
    assert WordOf(1) == Plus(WordOf(0), 1);
    PlusZero(1);
  }
}
