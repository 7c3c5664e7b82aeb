/** Every sequence of batches and reversals, from an empty ledger. */
module LedgerRun {
  import opened Common
  import opened Ledger

  datatype Op = ApplyOp(batch: seq<Entry>) | ReverseOp(id: string, reason: string, now: int, freshId: string)

  datatype State = State(entries: seq<Entry>, seen: set<Key>)

  /** Ids are drawn fresh; an ordinary entry reverses nothing. */
  ghost predicate FreshOp(es: seq<Entry>, op: Op) {
    match op
    case ApplyOp(batch) =>
      && (forall i, j :: 0 <= i < j < |batch| ==> batch[i].id != batch[j].id)
      && (forall e :: e in batch ==> e.reverses == None && forall x :: x in es ==> x.id != e.id)
      && (forall e, x :: e in batch && x in es ==> x.reverses != Some(e.id))
    case ReverseOp(_, _, _, freshId) => forall x :: x in es ==> x.id != freshId && x.reverses != Some(freshId)
  }

  /** What the kernel's methods do to its state, by their contracts. */
  function Next(defs: seq<CurrencyDef>, s: State, op: Op): State {
    match op
    case ApplyOp(batch) =>
      if Accepts(s.entries, s.seen, batch, defs) then State(s.entries + batch, s.seen + Keys(batch)) else s
    case ReverseOp(id, reason, now, freshId) =>
      if Reversible(s.entries, s.seen, id, reason, now, freshId, defs) then
        var comp := Compensation(s.entries[IndexOf(s.entries, id)], reason, now, freshId);
        State(s.entries + [comp], s.seen + {KeyOf(comp)})
      else s
  }

  method Perform(k: LedgerKernel, defs: seq<CurrencyDef>, op: Op)
    modifies k
    ensures State(k.entries, k.seen) == Next(defs, State(old(k.entries), old(k.seen)), op)
  {
    match op {
      case ApplyOp(batch) =>
        var _ := k.Apply(batch, defs);
      case ReverseOp(id, reason, now, freshId) =>
        var _ := k.Reverse(id, reason, now, freshId, defs);
    }
  }

  /** The states some run reaches from the empty ledger. */
  ghost predicate Reaches(defs: seq<CurrencyDef>, ops: seq<Op>, s: State) {
    if ops == [] then s == State([], {})
    else
      exists before ::
        && Reaches(defs, ops[..|ops| - 1], before)
        && FreshOp(before.entries, ops[|ops| - 1]) && s == Next(defs, before, ops[|ops| - 1])
  }

  // ---- Invariants of every run -----------------------------------------------------------

  /** A reversal compensates one earlier entry of the same account, which nothing else reverses. */
  ghost predicate Compensates(es: seq<Entry>, j: nat, i: nat) {
    && j < i < |es| && es[i].reverses == Some(es[j].id)
    && On(es[i], es[j].wallet, es[j].currency) && es[i].amount == -es[j].amount
  }

  ghost predicate Linked(es: seq<Entry>) {
    && (forall i, j :: 0 <= i < j < |es| ==> es[i].id != es[j].id)
    && (forall i :: 0 <= i < |es| && es[i].reverses.Some? ==> exists j :: Compensates(es, j, i))
    && (forall i, j :: 0 <= i < j < |es| && es[i].reverses.Some? ==> es[i].reverses != es[j].reverses)
  }

  ghost predicate PolicyHolds(defs: seq<CurrencyDef>, es: seq<Entry>) {
    forall w, c :: AccountPolicy(defs, es, w, c)
  }

  /** A known currency's balance is allowed; an unknown currency has no entry. */
  ghost predicate AccountPolicy(defs: seq<CurrencyDef>, es: seq<Entry>, w: string, c: string) {
    var d := Find(defs, c);
    if d.Some? then Allowed(d.value, Balance(es, w, c)) else forall e :: e in es ==> e.currency != c
  }

  ghost predicate Inv(defs: seq<CurrencyDef>, s: State) {
    Linked(s.entries) && s.seen == Keys(s.entries) && PolicyHolds(defs, s.entries)
  }

  lemma AppendPolicy(defs: seq<CurrencyDef>, es: seq<Entry>, batch: seq<Entry>)
    requires PolicyHolds(defs, es) && NetAllowed(es, batch, defs)
    ensures PolicyHolds(defs, es + batch)
  {
    forall w, c ensures AccountPolicy(defs, es + batch, w, c) {
      assert AccountPolicy(defs, es, w, c);
      BalanceSum(es, batch, w, c);
      if e :| e in batch && On(e, w, c) {
        assert AccountAllowed(es, batch, defs, (e.wallet, e.currency));
      } else {
        Untouched(batch, w, c);
      }
      forall e | e in batch ensures Find(defs, e.currency).Some? {
        assert AccountAllowed(es, batch, defs, (e.wallet, e.currency));
      }
    }
  }

  lemma {:induction false} Untouched(batch: seq<Entry>, w: string, c: string)
    requires forall e :: e in batch ==> !On(e, w, c)
    ensures Balance(batch, w, c) == 0
  {
    if batch == [] {
    } else {
      Untouched(batch[..|batch| - 1], w, c);
    }
  }

  lemma AppendLinked(es: seq<Entry>, batch: seq<Entry>)
    requires Linked(es) && FreshOp(es, ApplyOp(batch))
    ensures Linked(es + batch)
  {
    var all := es + batch;
    assert forall x :: 0 <= x < |batch| ==> batch[x] in batch;
    assert forall i :: |es| <= i < |all| ==> all[i] == batch[i - |es|];
    forall i | 0 <= i < |all| && all[i].reverses.Some? ensures exists j :: Compensates(all, j, i) {
      var j :| Compensates(es, j, i);
      assert Compensates(all, j, i);
    }
    forall i, j | 0 <= i < j < |all| ensures all[i].id != all[j].id {
      if i < |es| <= j { assert all[i] in es && all[j] in batch; }
    }
    forall i, j | 0 <= i < j < |all| && all[i].reverses.Some? ensures all[i].reverses != all[j].reverses {
      if j >= |es| { assert all[j] in batch; }
    }
  }

  lemma AppendReversal(es: seq<Entry>, j: nat, comp: Entry)
    requires Linked(es) && j < |es| && !IsReversed(es, es[j].id)
    requires comp.reverses == Some(es[j].id) && On(comp, es[j].wallet, es[j].currency) && comp.amount == -es[j].amount
    requires forall x :: x in es ==> x.id != comp.id
    ensures Linked(es + [comp])
  {
    var all := es + [comp];
    forall i | 0 <= i < |all| && all[i].reverses.Some? ensures exists k :: Compensates(all, k, i) {
      if i < |es| {
        var k :| Compensates(es, k, i);
        assert Compensates(all, k, i);
      } else {
        assert Compensates(all, j, i);
      }
    }
    forall i, k | 0 <= i < k < |all| && all[i].reverses.Some? ensures all[i].reverses != all[k].reverses {
      if k == |es| { assert es[i] in es; }
    }
  }

  lemma NextKeeps(defs: seq<CurrencyDef>, s: State, op: Op)
    requires Inv(defs, s) && FreshOp(s.entries, op)
    ensures Inv(defs, Next(defs, s, op)) && s.entries <= Next(defs, s, op).entries
  {
    hide Linked, PolicyHolds, NetAllowed;
    match op {
      case ApplyOp(batch) =>
        if Accepts(s.entries, s.seen, batch, defs) {
          AppendLinked(s.entries, batch);
          AppendPolicy(defs, s.entries, batch);
          assert Keys(s.entries + batch) == Keys(s.entries) + Keys(batch);
        }
      case ReverseOp(id, reason, now, freshId) =>
        if Reversible(s.entries, s.seen, id, reason, now, freshId, defs) {
          var j := IndexOf(s.entries, id);
          var comp := Compensation(s.entries[j], reason, now, freshId);
          AppendReversal(s.entries, j, comp);
          AppendPolicy(defs, s.entries, [comp]);
          assert Keys(s.entries + [comp]) == Keys(s.entries) + {KeyOf(comp)};
        }
    }
  }

  lemma {:induction false} EveryRun(defs: seq<CurrencyDef>, ops: seq<Op>, s: State)
    requires Reaches(defs, ops, s)
    ensures Inv(defs, s)
  {
    if ops == [] {
      EmptyPolicy(defs);
    } else {
      var before :| Reaches(defs, ops[..|ops| - 1], before)
                    && FreshOp(before.entries, ops[|ops| - 1]) && s == Next(defs, before, ops[|ops| - 1]);
      EveryRun(defs, ops[..|ops| - 1], before);
      NextKeeps(defs, before, ops[|ops| - 1]);
    }
  }

  lemma EmptyPolicy(defs: seq<CurrencyDef>)
    ensures Inv(defs, State([], {}))
  {
  }

  // ---- Balances are sums of the entries still standing -----------------------------------

  /** Position of the entry that reverses entry `i`, or the end. */
  function Reverser(es: seq<Entry>, i: nat): (j: nat)
    requires i < |es|
    ensures i < j <= |es|
  {
    ReverserFrom(es, es[i].id, i + 1)
  }

  function ReverserFrom(es: seq<Entry>, id: string, from: nat): (j: nat)
    requires from <= |es|
    ensures from <= j <= |es|
    ensures j < |es| ==> es[j].reverses == Some(id)
    ensures forall k :: from <= k < j ==> es[k].reverses != Some(id)
    decreases |es| - from
  {
    if from == |es| || es[from].reverses == Some(id) then from else ReverserFrom(es, id, from + 1)
  }

  /** How many reversals are stacked on entry `i`. */
  function ChainLength(es: seq<Entry>, i: nat): nat
    requires i < |es|
    decreases |es| - i
  {
    if Reverser(es, i) == |es| then 0 else 1 + ChainLength(es, Reverser(es, i))
  }

  /** What a chain contributes in all. */
  function ChainSum(es: seq<Entry>, i: nat): int
    requires i < |es|
    decreases |es| - i
  {
    es[i].amount + if Reverser(es, i) == |es| then 0 else ChainSum(es, Reverser(es, i))
  }

  /** The sum of the original entries whose reversal chain has even length. */
  function Standing(es: seq<Entry>, from: nat, wallet: string, currency: string): int
    requires from <= |es|
    decreases |es| - from
  {
    if from == |es| then 0
    else
      Standing(es, from + 1, wallet, currency)
      + if On(es[from], wallet, currency) && es[from].reverses.None? && ChainLength(es, from) % 2 == 0
        then es[from].amount else 0
  }

  lemma ReverserCompensates(es: seq<Entry>, i: nat)
    requires Linked(es) && i < |es| && Reverser(es, i) < |es|
    ensures Compensates(es, i, Reverser(es, i))
  {
    var r := Reverser(es, i);
    var j :| Compensates(es, j, r);
    assert j == i;
  }

  lemma ReverserOpposite(es: seq<Entry>, i: nat)
    requires Linked(es) && i < |es| && Reverser(es, i) < |es|
    ensures i < Reverser(es, i) && es[Reverser(es, i)].amount == -es[i].amount
  {
    ReverserCompensates(es, i);
  }

  lemma NextParity(n: nat)
    ensures (1 + n) % 2 == 0 <==> n % 2 != 0
  {
  }

  lemma {:induction false} ChainSumIs(es: seq<Entry>, i: nat)
    requires Linked(es) && i < |es|
    ensures ChainSum(es, i) == if ChainLength(es, i) % 2 == 0 then es[i].amount else 0
    decreases |es| - i
  {
    hide Linked, Reverser;
    if Reverser(es, i) >= |es| {
    } else {
      ReverserOpposite(es, i);
      ChainSumIs(es, Reverser(es, i));
      NextParity(ChainLength(es, Reverser(es, i)));
    }
  }

  /** Entry `i` starts a chain, as seen from position `k` on. */
  ghost predicate Head(es: seq<Entry>, k: nat, i: nat)
    requires i < |es|
  {
    forall j :: k <= j < i ==> Reverser(es, j) != i
  }

  /** Chains that start at or after `from`, as seen from `k` on, on one account. */
  ghost function HeadSum(es: seq<Entry>, k: nat, from: nat, wallet: string, currency: string): int
    requires from <= |es|
    decreases |es| - from
  {
    if from == |es| then 0
    else
      HeadSum(es, k, from + 1, wallet, currency)
      + if On(es[from], wallet, currency) && Head(es, k, from) then ChainSum(es, from) else 0
  }

  /** Looking from one position earlier, only the reverser of that position stops being a head. */
  lemma {:induction false} HeadSumShift(es: seq<Entry>, k: nat, from: nat, w: string, c: string)
    requires Linked(es) && k < from <= |es|
    ensures var r := Reverser(es, k);
            HeadSum(es, k, from, w, c) == HeadSum(es, k + 1, from, w, c)
              - if from <= r < |es| && On(es[k], w, c) then ChainSum(es, r) else 0
    decreases |es| - from
  {
    hide Linked, Head, Compensates, ChainSum, Reverser;
    if from >= |es| {
    } else {
      HeadSumShift(es, k, from + 1, w, c);
      HeadShift(es, k, from);
      if Reverser(es, k) == from { SameAccount(es, k, from, w, c); }
    }
  }

  lemma SameAccount(es: seq<Entry>, k: nat, i: nat, w: string, c: string)
    requires Compensates(es, k, i)
    ensures On(es[k], w, c) <==> On(es[i], w, c)
  {
  }

  lemma HeadShift(es: seq<Entry>, k: nat, i: nat)
    requires Linked(es) && k < i < |es|
    ensures Head(es, k, i) <==> Head(es, k + 1, i) && Reverser(es, k) != i
    ensures Reverser(es, k) == i ==> Head(es, k + 1, i) && Compensates(es, k, i)
  {
    if Reverser(es, k) == i {
      ReverserCompensates(es, k);
      forall j | k < j < i ensures Reverser(es, j) != i {
        if Reverser(es, j) == i { ReverserCompensates(es, j); }
      }
    }
  }

  function SumFrom(es: seq<Entry>, from: nat, w: string, c: string): int
    requires from <= |es|
    decreases |es| - from
  {
    if from == |es| then 0 else (if On(es[from], w, c) then es[from].amount else 0) + SumFrom(es, from + 1, w, c)
  }

  /** Every entry lies in exactly one chain. */
  lemma {:induction false} ChainsPartition(es: seq<Entry>, k: nat, w: string, c: string)
    requires Linked(es) && k <= |es|
    ensures HeadSum(es, k, k, w, c) == SumFrom(es, k, w, c)
    decreases |es| - k
  {
    if k >= |es| {
    } else {
      ChainsPartition(es, k + 1, w, c);
      HeadSumShift(es, k, k + 1, w, c);
      assert Head(es, k, k);
    }
  }

  lemma {:induction false} SumFromIsBalance(es: seq<Entry>, from: nat, w: string, c: string)
    requires from <= |es|
    ensures Balance(es[..from], w, c) + SumFrom(es, from, w, c) == Balance(es, w, c)
    decreases |es| - from
  {
    if from == |es| {
      assert es[..from] == es;
    } else {
      SumFromIsBalance(es, from + 1, w, c);
      assert es[..from + 1][..from] == es[..from];
    }
  }

  lemma {:induction false} HeadsAreOriginals(es: seq<Entry>, from: nat, w: string, c: string)
    requires Linked(es) && from <= |es|
    ensures HeadSum(es, 0, from, w, c) == Standing(es, from, w, c)
    decreases |es| - from
  {
    hide Linked, Head, Reverser, ChainSum, ChainLength;
    if from >= |es| {
    } else {
      HeadsAreOriginals(es, from + 1, w, c);
      ChainSumIs(es, from);
      HeadIsOriginal(es, from);
    }
  }

  lemma HeadIsOriginal(es: seq<Entry>, i: nat)
    requires Linked(es) && i < |es|
    ensures Head(es, 0, i) <==> es[i].reverses.None?
  {
    hide Reverser;
    if es[i].reverses.Some? {
      var j :| Compensates(es, j, i);
      OnlyReverser(es, j, i);
    } else {
      forall j | 0 <= j < i ensures Reverser(es, j) != i {
        if Reverser(es, j) == i { ReverserCompensates(es, j); }
      }
    }
  }

  lemma OnlyReverser(es: seq<Entry>, j: nat, i: nat)
    requires Linked(es) && Compensates(es, j, i)
    ensures Reverser(es, j) == i
  {
    if Reverser(es, j) < i { assert false; }
  }

  /**
   * After any run each balance is the sum of the original entries with an even number of reversals stacked on
   * them, and that sum is within the currency's policy.
   */
  lemma BalanceIsStanding(defs: seq<CurrencyDef>, ops: seq<Op>, s: State, wallet: string, currency: string)
    requires Reaches(defs, ops, s)
    ensures Balance(s.entries, wallet, currency) == Standing(s.entries, 0, wallet, currency)
    ensures Find(defs, currency).Some? ==>
              Allowed(Find(defs, currency).value, Standing(s.entries, 0, wallet, currency))
  {
    hide Linked, Reaches;
    EveryRun(defs, ops, s);
    ChainsPartition(s.entries, 0, wallet, currency);
    HeadsAreOriginals(s.entries, 0, wallet, currency);
    SumFromIsBalance(s.entries, 0, wallet, currency);
    assert AccountPolicy(defs, s.entries, wallet, currency);
  }

  // ---- Where the kernel does less than its comments say ----------------------------------

  /**
   * A reversal is not always legal: an unreversed entry is refused exactly when the reference of its reversal was
   * recorded already, or undoing it would break the policy now.
   */
  lemma ReversalAccepted(defs: seq<CurrencyDef>, s: State, id: string, reason: string, now: int, freshId: string)
    requires Inv(defs, s)
    requires IndexOf(s.entries, id) < |s.entries| && !IsReversed(s.entries, id)
    ensures var e := s.entries[IndexOf(s.entries, id)];
            && Find(defs, e.currency).Some?
            && (Reversible(s.entries, s.seen, id, reason, now, freshId, defs) <==>
                  && ("system.reversal", "reversal:" + id) !in s.seen
                  && Allowed(Find(defs, e.currency).value, Balance(s.entries, e.wallet, e.currency) - e.amount))
  {
    var e := s.entries[IndexOf(s.entries, id)];
    var comp := Compensation(e, reason, now, freshId);
    assert AccountPolicy(defs, s.entries, e.wallet, e.currency);
    SingleBalance(comp);
    assert comp in [comp] && KeyOf(comp) == ("system.reversal", "reversal:" + id);
    assert Replays(s.seen, [comp]) <==> KeyOf(comp) in s.seen;
    assert NetAllowed(s.entries, [comp], defs) <==> AccountAllowed(s.entries, [comp], defs, (e.wallet, e.currency));
  }

  /** An accepted reversal takes the amount back off its account, once: the entry counts as reversed from then on. */
  lemma ReversalUndoes(defs: seq<CurrencyDef>, s: State, id: string, reason: string, now: int, freshId: string)
    requires Reversible(s.entries, s.seen, id, reason, now, freshId, defs)
    ensures var e, after := s.entries[IndexOf(s.entries, id)], Next(defs, s, ReverseOp(id, reason, now, freshId));
            && e.id == id && |after.entries| == |s.entries| + 1 && s.entries <= after.entries
            && (forall w, c :: Balance(after.entries, w, c)
                  == Balance(s.entries, w, c) - if w == e.wallet && c == e.currency then e.amount else 0)
            && IsReversed(after.entries, id) && ("system.reversal", "reversal:" + id) in after.seen
            && forall reason', now', freshId', later ::
                 !Reversible(after.entries, later, id, reason', now', freshId', defs)
  {
    var e := s.entries[IndexOf(s.entries, id)];
    var comp := Compensation(e, reason, now, freshId);
    var all := s.entries + [comp];
    hide Accepts;
    CompensationIs(e, reason, now, freshId);
    assert all[|s.entries|] == comp && comp in all;
    forall w, c
      ensures Balance(all, w, c) == Balance(s.entries, w, c) - if w == e.wallet && c == e.currency then e.amount else 0
    {
      assert all[..|s.entries|] == s.entries;
    }
  }

  lemma SingleBalance(e: Entry)
    ensures Balance([e], e.wallet, e.currency) == e.amount
  {
    assert [e][..0] == [];
  }

  function Earned(id: string, currency: string): Entry {
    Entry(id, "w", currency, 10, "rule:a", "earn", "", "", id, 0, None)
  }

  function Spent(id: string, currency: string): Entry { Earned(id, currency).(amount := -10) }

  /** The state after one earn of ten, accepted or not. */
  function AfterEarn(defs: seq<CurrencyDef>, currency: string): State {
    Next(defs, State([], {}), ApplyOp([Earned("a", currency)]))
  }

  lemma EarnStep(defs: seq<CurrencyDef>, currency: string, cap: int)
    requires Find(defs, currency) == Some(CurrencyDef(currency, cap, false)) && (cap <= 0 || cap >= 10)
    ensures var s := AfterEarn(defs, currency);
            s == State([Earned("a", currency)], {KeyOf(Earned("a", currency))}) && Inv(defs, s)
  {
    hide Accepts, Inv;
    var earned := Earned("a", currency);
    EmptyPolicy(defs);
    AcceptedAlone(defs, [], {}, earned);
    NextKeeps(defs, State([], {}), ApplyOp([earned]));
    assert [] + [earned] == [earned] && {} + Keys([earned]) == {KeyOf(earned)};
  }

  lemma SpendStep(defs: seq<CurrencyDef>, currency: string, cap: int, s: State)
    requires Find(defs, currency) == Some(CurrencyDef(currency, cap, false))
    requires s == State([Earned("a", currency)], {KeyOf(Earned("a", currency))}) && Inv(defs, s)
    ensures var after := Next(defs, s, ApplyOp([Spent("b", currency)]));
            after.entries == [Earned("a", currency), Spent("b", currency)] && Inv(defs, after)
            && ("system.reversal", "reversal:a") !in after.seen
  {
    hide Accepts, Inv, Balance;
    var earned, spent := Earned("a", currency), Spent("b", currency);
    DifferentIds();
    SingleBalance(earned);
    AcceptedAlone(defs, [earned], {KeyOf(earned)}, spent);
    NextKeeps(defs, s, ApplyOp([spent]));
    assert [earned] + [spent] == [earned, spent] && Keys([spent]) == {KeyOf(spent)};
    assert |"rule:a"| != |"system.reversal"|;
  }

  /** Earn, spend, then undo the earn: refused, because the balance would go below zero. */
  lemma ReversalRefused(defs: seq<CurrencyDef>, currency: string, cap: int, reason: string, freshId: string)
    requires Find(defs, currency) == Some(CurrencyDef(currency, cap, false)) && (cap <= 0 || cap >= 10)
    ensures var after := Next(defs, AfterEarn(defs, currency), ApplyOp([Spent("b", currency)]));
            && after.entries == [Earned("a", currency), Spent("b", currency)]
            && !IsReversed(after.entries, "a") && ("system.reversal", "reversal:a") !in after.seen
            && !Reversible(after.entries, after.seen, "a", reason, 0, freshId, defs)
  {
    hide Next, Inv, Reversible, Balance;
    EarnStep(defs, currency, cap);
    SpendStep(defs, currency, cap, AfterEarn(defs, currency));
    var after := Next(defs, AfterEarn(defs, currency), ApplyOp([Spent("b", currency)]));
    assert after.entries[0] == Earned("a", currency) && IndexOf(after.entries, "a") == 0;
    EarnThenSpend(currency);
    ReversalAccepted(defs, after, "a", reason, 0, freshId);
  }

  lemma EarnThenSpend(currency: string)
    ensures Balance([Earned("a", currency), Spent("b", currency)], "w", currency) == 0
  {
    var earned, spent := Earned("a", currency), Spent("b", currency);
    SingleBalance(earned);
    assert [earned, spent][..1] == [earned];
  }

  lemma DifferentIds()
    ensures "a" != "b"
  {
    assert "a"[0] != "b"[0];
  }

  lemma AcceptedAlone(defs: seq<CurrencyDef>, es: seq<Entry>, seen: set<Key>, e: Entry)
    ensures Find(defs, e.currency).Some? ==>
              (Accepts(es, seen, [e], defs) <==>
                 && KeyOf(e) !in seen
                 && Allowed(Find(defs, e.currency).value, Balance(es, e.wallet, e.currency) + e.amount))
  {
    SingleBalance(e);
    assert e in [e];
    assert Replays(seen, [e]) <==> KeyOf(e) in seen;
    assert NetAllowed(es, [e], defs) <==>
             (Find(defs, e.currency).Some? ==> AccountAllowed(es, [e], defs, (e.wallet, e.currency)))
                                          && Find(defs, e.currency).Some?;
  }

  /** A batch may record the reference of a reversal first; the entry then stays unreversed and cannot be reversed. */
  lemma ReversalReferenceTaken(defs: seq<CurrencyDef>, s: State, id: string, reason: string, now: int, freshId: string)
    requires Inv(defs, s)
    requires IndexOf(s.entries, id) < |s.entries| && !IsReversed(s.entries, id)
    requires exists e :: e in s.entries && e.reverses == None && KeyOf(e) == ("system.reversal", "reversal:" + id)
    ensures !Reversible(s.entries, s.seen, id, reason, now, freshId, defs)
  {
    ReversalAccepted(defs, s, id, reason, now, freshId);
  }

  function Blocker(currency: string): Entry {
    Earned("b", currency).(amount := 0, source := "system.reversal", reference := "reversal:a")
  }

  lemma BlockerStep(defs: seq<CurrencyDef>, currency: string, cap: int, s: State)
    requires Find(defs, currency) == Some(CurrencyDef(currency, cap, false)) && (cap <= 0 || cap >= 10)
    requires s == State([Earned("a", currency)], {KeyOf(Earned("a", currency))}) && Inv(defs, s)
    ensures var after := Next(defs, s, ApplyOp([Blocker(currency)]));
            after.entries == [Earned("a", currency), Blocker(currency)] && Inv(defs, after)
  {
    hide Accepts, Inv, Balance;
    var earned, blocker := Earned("a", currency), Blocker(currency);
    DifferentIds();
    SingleBalance(earned);
    assert |"rule:a"| != |"system.reversal"|;
    AcceptedAlone(defs, [earned], {KeyOf(earned)}, blocker);
    NextKeeps(defs, s, ApplyOp([blocker]));
    assert [earned] + [blocker] == [earned, blocker];
  }

  /** Earn, let an ordinary entry take the reference, then undo the earn: refused, although the balance allows it. */
  lemma ReferenceTakenFirst(defs: seq<CurrencyDef>, currency: string, cap: int, reason: string, freshId: string)
    requires Find(defs, currency) == Some(CurrencyDef(currency, cap, false)) && (cap <= 0 || cap >= 10)
    ensures var after := Next(defs, AfterEarn(defs, currency), ApplyOp([Blocker(currency)]));
            && after.entries == [Earned("a", currency), Blocker(currency)]
            && !IsReversed(after.entries, "a")
            && Allowed(Find(defs, currency).value, Balance(after.entries, "w", currency) - Earned("a", currency).amount)
            && !Reversible(after.entries, after.seen, "a", reason, 0, freshId, defs)
  {
    hide Next, Inv, Reversible, Balance;
    EarnStep(defs, currency, cap);
    BlockerStep(defs, currency, cap, AfterEarn(defs, currency));
    var after := Next(defs, AfterEarn(defs, currency), ApplyOp([Blocker(currency)]));
    assert after.entries[0] == Earned("a", currency) && IndexOf(after.entries, "a") == 0;
    assert after.entries[1] == Blocker(currency) && "reversal:" + "a" == "reversal:a";
    EarnThenBlock(currency);
    ReversalReferenceTaken(defs, after, "a", reason, 0, freshId);
  }

  lemma EarnThenBlock(currency: string)
    ensures Balance([Earned("a", currency), Blocker(currency)], "w", currency) == 10
  {
    var earned, blocker := Earned("a", currency), Blocker(currency);
    SingleBalance(earned);
    assert [earned, blocker][..1] == [earned];
  }

  /** Replays are caught across batches only: references stay unique exactly when each batch's own are. */
  lemma ReplayAcrossBatchesOnly(es: seq<Entry>, batch: seq<Entry>)
    requires DistinctKeys(es) && !Replays(Keys(es), batch)
    ensures DistinctKeys(es + batch) <==> DistinctKeys(batch)
  {
    var all := es + batch;
    assert forall i :: 0 <= i < |batch| ==> batch[i] == all[|es| + i];
    assert forall i :: 0 <= i < |es| ==> all[i] == es[i] && KeyOf(es[i]) in Keys(es);
    forall i, j | 0 <= i < |es| <= j < |all| ensures KeyOf(all[i]) != KeyOf(all[j]) {
      assert all[j] in batch;
    }
  }

  /** One batch may carry the same grant twice, and both copies count. */
  lemma ReplayInsideBatch(e: Entry, defs: seq<CurrencyDef>)
    requires Find(defs, e.currency).Some? && Allowed(Find(defs, e.currency).value, 2 * e.amount)
    ensures Accepts([], {}, [e, e.(id := e.id + "'")], defs)
    ensures Balance([e, e.(id := e.id + "'")], e.wallet, e.currency) == 2 * e.amount
  {
    var two := [e, e.(id := e.id + "'")];
    assert two[..1] == [e] && [e][..0] == [];
    assert Balance(two, e.wallet, e.currency) == Balance([e], e.wallet, e.currency) + e.amount;
    assert Balance([e], e.wallet, e.currency) == Balance([], e.wallet, e.currency) + e.amount;
  }
}
