/** The control plane's per-command balance check against the kernel's net check, on one user's currency commands. */
module GoRefinesRust {
  import opened Common
  import opened Ledger
  import opened WalletStore
  import opened WalletAgreement

  function Batch(user: string, cs: seq<Command>): seq<Entry> {
    seq(|cs|, i requires 0 <= i < |cs| => EntryOf(user, cs[i]))
  }

  /** Earns and non-negative spends only: the commands both sides treat as ledger entries. */
  ghost predicate CurrencyCommands(cs: seq<Command>) {
    forall c :: c in cs ==> MovesMoney(c) && (c.kind.SpendCurrency? ==> c.amount >= 0)
  }

  /** References new to the ledger and to each other. */
  ghost predicate FreshRefs(user: string, cs: seq<Command>, used: set<Key>) {
    && (forall c :: c in cs ==> KeyOf(EntryOf(user, c)) !in used)
    && (forall i, j :: 0 <= i < j < |cs| ==> KeyOf(EntryOf(user, cs[i])) != KeyOf(EntryOf(user, cs[j])))
  }

  /** Both sides know the currencies and hold the same policy for them. */
  ghost predicate SamePolicy(cs: seq<Command>, ps: map<string, Policy>, defs: seq<CurrencyDef>) {
    forall c :: c in cs ==>
      CurrencyOf(c) in ps && Find(defs, CurrencyOf(c)) == Some(PolicyFor(ps, CurrencyOf(c)))
  }

  /** The balance the control plane sees right after command `i`. */
  function BalanceAfter(t: Tables, user: string, cs: seq<Command>, i: nat): int
    requires i < |cs|
  {
    Balance(t.entries + Batch(user, cs[..i + 1]), user, CurrencyOf(cs[i]))
  }

  ghost predicate StepsAllowed(t: Tables, ps: map<string, Policy>, user: string, cs: seq<Command>) {
    forall i :: 0 <= i < |cs| ==> Allowed(PolicyFor(ps, CurrencyOf(cs[i])), BalanceAfter(t, user, cs, i))
  }

  /** On fresh references the control plane commits exactly when every intermediate balance is allowed. */
  lemma {:induction false} CommitsIffStepsAllowed(t: Tables, ps: map<string, Policy>, user: string, cs: seq<Command>)
    requires CurrencyCommands(cs) && FreshRefs(user, cs, Keys(t.entries))
    ensures ApplyAll(t, ps, user, cs).Applied? <==> StepsAllowed(t, ps, user, cs)
    ensures ApplyAll(t, ps, user, cs).Applied? ==>
              ApplyAll(t, ps, user, cs).tables.entries == t.entries + Batch(user, cs)
    decreases |cs|
  {
    hide ApplyCommand, Allowed, PolicyFor, Keys, Balance, StepsAllowed, FreshRefs, Recorded;
    if cs == [] {
      EmptySteps(t, ps, user);
      assert t.entries + Batch(user, cs) == t.entries;
    } else {
      var n := |cs| - 1;
      var front := cs[..n];
      FreshFront(user, cs, Keys(t.entries));
      CommitsIffStepsAllowed(t, ps, user, front);
      FrontSteps(t, ps, user, cs);
      var e := EntryOf(user, cs[n]);
      assert cs[n] in cs;
      NewReference(t, user, cs);
      assert t.entries + Batch(user, front) + [e] == t.entries + Batch(user, cs);
      assert cs[..n + 1] == cs;
      var r := ApplyAll(t, ps, user, front);
      if r.Applied? { OneStep(r.tables, ps, user, cs[n]); }
    }
  }

  lemma EmptySteps(t: Tables, ps: map<string, Policy>, user: string)
    ensures StepsAllowed(t, ps, user, [])
  {
  }

  lemma FreshFront(user: string, cs: seq<Command>, used: set<Key>)
    requires cs != [] && FreshRefs(user, cs, used)
    ensures FreshRefs(user, cs[..|cs| - 1], used)
  {
  }

  lemma OneStep(t: Tables, ps: map<string, Policy>, user: string, c: Command)
    requires CurrencyCommands([c]) && !Recorded(t.entries, EntryOf(user, c))
    ensures var e := EntryOf(user, c);
            var r := ApplyCommand(t, ps, user, c);
            && (r.Applied? <==> Allowed(PolicyFor(ps, e.currency), Balance(t.entries + [e], user, e.currency)))
            && (r.Applied? ==> r.tables.entries == t.entries + [e])
  {
    hide Recorded, Allowed, PolicyFor, Balance;
    assert c in [c];
  }

  lemma FrontSteps(t: Tables, ps: map<string, Policy>, user: string, cs: seq<Command>)
    requires cs != []
    ensures StepsAllowed(t, ps, user, cs) <==>
            && StepsAllowed(t, ps, user, cs[..|cs| - 1])
            && Allowed(PolicyFor(ps, CurrencyOf(cs[|cs| - 1])), BalanceAfter(t, user, cs, |cs| - 1))
  {
    hide Allowed, PolicyFor, Balance;
    var n := |cs| - 1;
    assert forall i :: 0 <= i < n ==> cs[..n][..i + 1] == cs[..i + 1] && cs[..n][i] == cs[i];
    assert forall i :: 0 <= i < n ==> BalanceAfter(t, user, cs[..n], i) == BalanceAfter(t, user, cs, i);
  }

  lemma NewReference(t: Tables, user: string, cs: seq<Command>)
    requires cs != [] && FreshRefs(user, cs, Keys(t.entries))
    ensures !Recorded(t.entries + Batch(user, cs[..|cs| - 1]), EntryOf(user, cs[|cs| - 1]))
  {
    var n := |cs| - 1;
    var e := EntryOf(user, cs[n]);
    forall x | x in t.entries + Batch(user, cs[..n]) ensures KeyOf(x) != KeyOf(e) {
      if x in t.entries {
        assert KeyOf(x) in Keys(t.entries) && cs[n] in cs;
      } else {
        var i :| 0 <= i < n && Batch(user, cs[..n])[i] == x;
      }
    }
  }

  // ---- Committed by the control plane, accepted by the kernel ----------------------------

  /** The last command on a currency leaves the net final balance. */
  lemma {:induction false} LastStep(t: Tables, user: string, cs: seq<Command>, currency: string) returns (i: nat)
    requires exists c :: c in cs && CurrencyOf(c) == currency
    ensures i < |cs| && CurrencyOf(cs[i]) == currency
    ensures BalanceAfter(t, user, cs, i) == Balance(t.entries + Batch(user, cs), user, currency)
    decreases |cs|
  {
    hide Balance, Batch, EntryOf, BalanceAfter;
    var n := |cs| - 1;
    if CurrencyOf(cs[n]) == currency {
      i := n;
      LastBalance(t, user, cs);
    } else {
      i := LastStep(t, user, cs[..n], currency);
      AfterPrefix(t, user, cs, i);
      OtherCurrency(t, user, cs, currency);
    }
  }

  lemma LastBalance(t: Tables, user: string, cs: seq<Command>)
    requires cs != []
    ensures BalanceAfter(t, user, cs, |cs| - 1) == Balance(t.entries + Batch(user, cs), user, CurrencyOf(cs[|cs| - 1]))
  {
    hide Balance, Batch;
    assert cs[..|cs| - 1 + 1] == cs;
  }

  lemma AfterPrefix(t: Tables, user: string, cs: seq<Command>, i: nat)
    requires i < |cs| - 1
    ensures BalanceAfter(t, user, cs[..|cs| - 1], i) == BalanceAfter(t, user, cs, i)
  {
    hide Balance, Batch;
    assert cs[..|cs| - 1][..i + 1] == cs[..i + 1];
  }

  lemma OtherCurrency(t: Tables, user: string, cs: seq<Command>, currency: string)
    requires cs != [] && CurrencyOf(cs[|cs| - 1]) != currency
    ensures Balance(t.entries + Batch(user, cs), user, currency)
            == Balance(t.entries + Batch(user, cs[..|cs| - 1]), user, currency)
  {
    hide Balance, Batch;
    BalanceSum(t.entries, Batch(user, cs), user, currency);
    BalanceSum(t.entries, Batch(user, cs[..|cs| - 1]), user, currency);
    BatchStep(user, cs, currency);
  }

  /** Both ledgers give the user the same balances. */
  ghost predicate SameBalances(t: Tables, entries: seq<Entry>, user: string) {
    forall c :: Balance(t.entries, user, c) == Balance(entries, user, c)
  }

  lemma CommittedIsAccepted(
      t: Tables, ps: map<string, Policy>, user: string, cs: seq<Command>,
      entries: seq<Entry>, seen: set<Key>, defs: seq<CurrencyDef>)
    requires CurrencyCommands(cs) && FreshRefs(user, cs, Keys(t.entries)) && FreshRefs(user, cs, seen)
    requires SamePolicy(cs, ps, defs) && SameBalances(t, entries, user)
    requires ApplyAll(t, ps, user, cs).Applied?
    ensures Accepts(entries, seen, Batch(user, cs), defs)
    ensures SameBalances(ApplyAll(t, ps, user, cs).tables, entries + Batch(user, cs), user)
  {
    hide ApplyAll, Allowed, PolicyFor, Find, Keys, Balance;
    CommitsIffStepsAllowed(t, ps, user, cs);
    forall e | e in Batch(user, cs)
      ensures KeyOf(e) !in seen && AccountAllowed(entries, Batch(user, cs), defs, (e.wallet, e.currency))
    {
      var k :| 0 <= k < |cs| && e == EntryOf(user, cs[k]);
      var i := LastStep(t, user, cs, e.currency);
      BalanceSum(t.entries, Batch(user, cs), user, e.currency);
      assert cs[k] in cs && cs[i] in cs;
    }
    forall c ensures Balance(t.entries + Batch(user, cs), user, c) == Balance(entries + Batch(user, cs), user, c) {
      BalanceSum(t.entries, Batch(user, cs), user, c);
      BalanceSum(entries, Batch(user, cs), user, c);
    }
  }

  // ---- Accepted by the kernel, committed by the control plane ----------------------------

  /** Within one currency no command earns while another spends. */
  ghost predicate OneSign(cs: seq<Command>) {
    forall a, b :: a in cs && b in cs && CurrencyOf(a) == CurrencyOf(b) ==> !(SignedAmount(a) < 0 < SignedAmount(b))
  }

  /** With amounts of one sign, partial sums lie between nothing and the whole. */
  lemma {:induction false} PartialSums(user: string, cs: seq<Command>, i: nat, currency: string, sign: int)
    requires i <= |cs| && (sign == 1 || sign == -1)
    requires forall c :: c in cs && CurrencyOf(c) == currency ==> sign * SignedAmount(c) >= 0
    ensures 0 <= sign * Balance(Batch(user, cs[..i]), user, currency) <= sign * Balance(Batch(user, cs), user, currency)
    decreases |cs|
  {
    hide Balance, Batch;
    assert cs[..|cs|] == cs;
    if cs == [] {
      NoBalance(user, currency);
    } else {
      var n := |cs| - 1;
      assert cs[n] in cs;
      BatchStep(user, cs, currency);
      PartialSums(user, cs[..n], if i < |cs| then i else n, currency, sign);
      if i < |cs| { assert cs[..n][..i] == cs[..i]; }
    }
  }

  lemma NoBalance(user: string, currency: string)
    ensures Balance(Batch(user, []), user, currency) == 0
  {
  }

  lemma BatchStep(user: string, cs: seq<Command>, currency: string)
    requires cs != []
    ensures var c := cs[|cs| - 1];
            Balance(Batch(user, cs), user, currency) ==
            Balance(Batch(user, cs[..|cs| - 1]), user, currency)
              + if CurrencyOf(c) == currency then SignedAmount(c) else 0
  {
    var n := |cs| - 1;
    assert Batch(user, cs) == Batch(user, cs[..n]) + [EntryOf(user, cs[n])];
    BalanceOne(Batch(user, cs[..n]), EntryOf(user, cs[n]), user, currency);
  }

  lemma AcceptedIsCommitted(
      t: Tables, ps: map<string, Policy>, user: string, cs: seq<Command>,
      entries: seq<Entry>, seen: set<Key>, defs: seq<CurrencyDef>)
    requires CurrencyCommands(cs) && FreshRefs(user, cs, Keys(t.entries))
    requires SamePolicy(cs, ps, defs) && SameBalances(t, entries, user)
    requires forall c :: c in cs ==> Allowed(PolicyFor(ps, CurrencyOf(c)), Balance(t.entries, user, CurrencyOf(c)))
    requires OneSign(cs) && Accepts(entries, seen, Batch(user, cs), defs)
    ensures ApplyAll(t, ps, user, cs).Applied?
  {
    hide ApplyAll, PolicyFor, Find, Keys, Balance;
    CommitsIffStepsAllowed(t, ps, user, cs);
    forall i | 0 <= i < |cs| ensures Allowed(PolicyFor(ps, CurrencyOf(cs[i])), BalanceAfter(t, user, cs, i)) {
      StepBetween(t, user, cs, i);
      assert cs[i] in cs && Batch(user, cs)[i] in Batch(user, cs);
      assert AccountAllowed(entries, Batch(user, cs), defs, (user, CurrencyOf(cs[i])));
      BalanceSum(entries, Batch(user, cs), user, CurrencyOf(cs[i]));
    }
  }

  lemma StepBetween(t: Tables, user: string, cs: seq<Command>, i: nat)
    requires OneSign(cs) && i < |cs|
    ensures var c := CurrencyOf(cs[i]);
            var start := Balance(t.entries, user, c);
            var end := start + Balance(Batch(user, cs), user, c);
            start <= BalanceAfter(t, user, cs, i) <= end || end <= BalanceAfter(t, user, cs, i) <= start
  {
    var c := CurrencyOf(cs[i]);
    var sign := if exists x :: x in cs && CurrencyOf(x) == c && SignedAmount(x) < 0 then -1 else 1;
    PartialSums(user, cs, i + 1, c, sign);
    BalanceSum(t.entries, Batch(user, cs[..i + 1]), user, c);
  }

  /** In general the converse fails: spending before earning nets to nothing but dips below zero on the way. */
  lemma SpendThenEarn(ps: map<string, Policy>, defs: seq<CurrencyDef>, currency: string)
    requires currency != "" && currency in ps && !ps[currency].allowNegative
    requires Find(defs, currency) == Some(PolicyFor(ps, currency))
    ensures var spend := Command(SpendCurrency, currency, 10, "rule:a", "rule:a:e:0", "", "e", "l0");
            var earn := Command(AddCurrency, currency, 10, "rule:a", "rule:a:e:1", "", "e", "l1");
            var t := NO_ROWS;
            && Accepts([], {}, Batch("u", [spend, earn]), defs)
            && ApplyAll(t, ps, "u", [spend, earn]).RolledBack?
  {
    var spend := Command(SpendCurrency, currency, 10, "rule:a", "rule:a:e:0", "", "e", "l0");
    var earn := Command(AddCurrency, currency, 10, "rule:a", "rule:a:e:1", "", "e", "l1");
    var t := NO_ROWS;
    var a, b := EntryOf("u", spend), EntryOf("u", earn);
    assert Batch("u", [spend, earn]) == [a] + [b] && [a] == [] + [a];
    BalanceOne([], a, "u", currency);
    BalanceOne([a], b, "u", currency);
    assert ApplyCommand(t, ps, "u", spend).RolledBack?;
    assert [spend, earn][..1] == [spend] && [spend][..0] == [];
    assert ApplyAll(t, ps, "u", [spend]).RolledBack?;
  }
}
