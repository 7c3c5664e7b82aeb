/** The append-only ledger kernel: batch validation on net balances, and reversals. */
module Ledger {
  import opened Common

  datatype Entry = Entry(
    id: string, wallet: string, currency: string, amount: int, source: string, reason: string,
    correlation: string, causation: string, reference: string, occurredAt: int, reverses: Option<string>)

  datatype CurrencyDef = CurrencyDef(id: string, cap: int, allowNegative: bool)

  datatype Error =
    | DuplicateReference(source: string, reference: string)
    | UnknownCurrency(currency: string)
    | WouldGoNegative(wallet: string, currency: string, balance: int)
    | WouldExceedCap(wallet: string, currency: string, balance: int)
    | UnknownEntry(id: string)
    | AlreadyReversed(id: string)

  datatype Result<T> = Ok(value: T) | Err(error: Error)

  type Key = (string, string)

  function KeyOf(e: Entry): Key { (e.source, e.reference) }

  function Keys(es: seq<Entry>): set<Key> { set e | e in es :: KeyOf(e) }

  /** No entry of the ledger repeats another's (source, reference). */
  ghost predicate DistinctKeys(es: seq<Entry>) {
    forall i, j :: 0 <= i < j < |es| ==> KeyOf(es[i]) != KeyOf(es[j])
  }

  predicate On(e: Entry, wallet: string, currency: string) { e.wallet == wallet && e.currency == currency }

  /** The balance as a projection: the sum of the signed amounts. */
  function Balance(es: seq<Entry>, wallet: string, currency: string): int {
    if es == [] then 0
    else
      Balance(es[..|es| - 1], wallet, currency)
      + if On(es[|es| - 1], wallet, currency) then es[|es| - 1].amount else 0
  }

  lemma {:induction false} BalanceSum(a: seq<Entry>, b: seq<Entry>, wallet: string, currency: string)
    ensures Balance(a + b, wallet, currency) == Balance(a, wallet, currency) + Balance(b, wallet, currency)
  {
    if b == [] {
      assert a + b == a;
    } else {
      BalanceSum(a, b[..|b| - 1], wallet, currency);
      assert (a + b)[..|a + b| - 1] == a + b[..|b| - 1];
    }
  }

  /** The first definition with the id. */
  function Find(defs: seq<CurrencyDef>, currency: string): Option<CurrencyDef> {
    if defs == [] then None else if defs[0].id == currency then Some(defs[0]) else Find(defs[1..], currency)
  }

  lemma {:induction false} FindIs(defs: seq<CurrencyDef>, currency: string, i: nat)
    requires i <= |defs| && (forall j :: 0 <= j < i ==> defs[j].id != currency)
    requires i < |defs| ==> defs[i].id == currency
    ensures Find(defs, currency) == if i < |defs| then Some(defs[i]) else None
  {
    if i == 0 {
    } else {
      FindIs(defs[1..], currency, i - 1);
    }
  }

  predicate Allowed(d: CurrencyDef, balance: int) {
    (balance >= 0 || d.allowNegative) && (d.cap > 0 ==> balance <= d.cap)
  }

  /** Some entry of the batch repeats a (source, reference) recorded earlier. */
  predicate Replays(seen: set<Key>, batch: seq<Entry>) {
    exists e :: e in batch && KeyOf(e) in seen
  }

  type Account = (string, string)

  function Accounts(es: seq<Entry>): set<Account> { set e | e in es :: (e.wallet, e.currency) }

  predicate AccountAllowed(entries: seq<Entry>, batch: seq<Entry>, defs: seq<CurrencyDef>, k: Account) {
    var d := Find(defs, k.1);
    d.Some? && Allowed(d.value, Balance(entries, k.0, k.1) + Balance(batch, k.0, k.1))
  }

  /** Every account the batch touches has a known currency and an allowed net final balance. */
  predicate NetAllowed(entries: seq<Entry>, batch: seq<Entry>, defs: seq<CurrencyDef>) {
    forall e :: e in batch ==> AccountAllowed(entries, batch, defs, (e.wallet, e.currency))
  }

  predicate Accepts(entries: seq<Entry>, seen: set<Key>, batch: seq<Entry>, defs: seq<CurrencyDef>) {
    !Replays(seen, batch) && NetAllowed(entries, batch, defs)
  }

  /** The error names something true of the batch. */
  ghost predicate Truthful(
      error: Error, entries: seq<Entry>, seen: set<Key>, batch: seq<Entry>, defs: seq<CurrencyDef>)
  {
    match error
    case DuplicateReference(source, reference) => (source, reference) in seen && (source, reference) in Keys(batch)
    case UnknownCurrency(c) => Find(defs, c).None? && exists e :: e in batch && e.currency == c
    case WouldGoNegative(w, c, b) =>
      && b < 0 && b == Balance(entries, w, c) + Balance(batch, w, c)
      && Find(defs, c).Some? && !Find(defs, c).value.allowNegative
    case WouldExceedCap(w, c, b) =>
      b == Balance(entries, w, c) + Balance(batch, w, c) && Find(defs, c).Some? && 0 < Find(defs, c).value.cap < b
    case _ => false
  }

  lemma OneMore(batch: seq<Entry>, i: nat)
    requires i < |batch|
    ensures Accounts(batch[..i + 1]) == Accounts(batch[..i]) + {(batch[i].wallet, batch[i].currency)}
    ensures forall k: Account ::
              Balance(batch[..i + 1], k.0, k.1)
              == Balance(batch[..i], k.0, k.1) + if On(batch[i], k.0, k.1) then batch[i].amount else 0
  {
    assert batch[..i + 1][..i] == batch[..i];
    assert batch[..i + 1] == batch[..i] + [batch[i]];
  }

  class LedgerKernel {
    var entries: seq<Entry>
    var seen: set<Key>

    constructor ()
      ensures entries == [] && seen == {}
    {
      entries, seen := [], {};
    }

    /** The wallet projection: one balance for each currency the wallet ever held. */
    method Wallet(wallet: string) returns (m: map<string, int>)
      ensures forall c :: c in m <==> exists e :: e in entries && On(e, wallet, c)
      ensures forall c :: Balance(entries, wallet, c) == if c in m then m[c] else 0
    {
      m := map[];
      for i := 0 to |entries|
        invariant forall c :: c in m <==> exists e :: e in entries[..i] && On(e, wallet, c)
        invariant forall c :: Balance(entries[..i], wallet, c) == if c in m then m[c] else 0
      {
        var e := entries[i];
        assert entries[..i + 1] == entries[..i] + [e];
        assert e in entries[..i + 1];
        if e.wallet == wallet { m := m[e.currency := (if e.currency in m then m[e.currency] else 0) + e.amount]; }
      }
      assert entries[..|entries|] == entries;
    }

    /** The net effect of the batch on each account it touches. */
    method Net(batch: seq<Entry>) returns (net: map<Account, int>)
      ensures net.Keys == Accounts(batch)
      ensures forall k :: k in net ==> net[k] == Balance(batch, k.0, k.1)
    {
      net := map[];
      for i := 0 to |batch|
        invariant net.Keys == Accounts(batch[..i])
        invariant forall k: Account :: Balance(batch[..i], k.0, k.1) == if k in net then net[k] else 0
      {
        hide Balance, Accounts;
        var e := batch[i];
        var k := (e.wallet, e.currency);
        OneMore(batch, i);
        net := net[k := (if k in net then net[k] else 0) + e.amount];
      }
      assert batch[..|batch|] == batch;
    }

    /** The policy pass over the net balances, in whatever order the accounts come. */
    method CheckNet(batch: seq<Entry>, defs: seq<CurrencyDef>) returns (error: Option<Error>)
      ensures error.None? <==> NetAllowed(entries, batch, defs)
      ensures error.Some? ==> Truthful(error.value, entries, seen, batch, defs)
    {
      var net := Net(batch);
      var todo := net.Keys;
      while todo != {}
        invariant todo <= net.Keys
        invariant forall k :: k in net && k !in todo ==> AccountAllowed(entries, batch, defs, k)
        decreases todo
      {
        var k :| k in todo;
        todo := todo - {k};
        var (wallet, currency) := k;
        var final := Balance(entries, wallet, currency) + net[k];
        var d := Find(defs, currency);
        TouchedAllowed(entries, batch, defs, k);
        if d.None? { return Some(UnknownCurrency(currency)); }
        if final < 0 && !d.value.allowNegative { return Some(WouldGoNegative(wallet, currency, final)); }
        if d.value.cap > 0 && final > d.value.cap { return Some(WouldExceedCap(wallet, currency, final)); }
      }
      assert NetAllowed(entries, batch, defs) by {
        forall e | e in batch ensures AccountAllowed(entries, batch, defs, (e.wallet, e.currency)) {
          assert (e.wallet, e.currency) in net;
        }
      }
      error := None;
    }

    method Apply(batch: seq<Entry>, defs: seq<CurrencyDef>) returns (r: Result<()>)
      modifies this
      ensures r.Ok? <==> Accepts(old(entries), old(seen), batch, defs)
      ensures r.Ok? ==> entries == old(entries) + batch && seen == old(seen) + Keys(batch)
      ensures r.Err? ==> entries == old(entries) && seen == old(seen)
      ensures r.Err? ==> Truthful(r.error, entries, seen, batch, defs)
      ensures Replays(old(seen), batch) ==> r.Err? && r.error.DuplicateReference?
    {
      hide NetAllowed;
      r := Ok(());
      if batch == [] {
        EmptyAllowed(entries, defs);
        return;
      }
      for i := 0 to |batch|
        invariant forall j :: 0 <= j < i ==> KeyOf(batch[j]) !in seen
      {
        if KeyOf(batch[i]) in seen { return Err(DuplicateReference(batch[i].source, batch[i].reference)); }
      }
      var error := CheckNet(batch, defs);
      if error.Some? { return Err(error.value); }
      entries := entries + batch;
      seen := seen + set e | e in batch :: KeyOf(e);
    }

    /** A compensating entry for one that exists and is not yet reversed; it goes through the same validation. */
    method Reverse(id: string, reason: string, now: int, freshId: string, defs: seq<CurrencyDef>)
      returns (r: Result<Entry>)
      modifies this
      ensures r.Ok? <==> Reversible(old(entries), old(seen), id, reason, now, freshId, defs)
      ensures r.Ok? ==>
                && r.value == Compensation(old(entries)[IndexOf(old(entries), id)], reason, now, freshId)
                && entries == old(entries) + [r.value] && seen == old(seen) + {KeyOf(r.value)}
      ensures r.Err? ==> entries == old(entries) && seen == old(seen)
      ensures IndexOf(old(entries), id) == |old(entries)| ==> r == Err(UnknownEntry(id))
      ensures IndexOf(old(entries), id) < |old(entries)| && IsReversed(old(entries), id) ==>
                r == Err(AlreadyReversed(id))
    {
      var i := IndexOf(entries, id);
      if i == |entries| { return Err(UnknownEntry(id)); }
      if IsReversed(entries, id) { return Err(AlreadyReversed(id)); }
      var comp := Compensation(entries[i], reason, now, freshId);
      var applied := Apply([comp], defs);
      if applied.Err? { return Err(applied.error); }
      assert Keys([comp]) == {KeyOf(comp)};
      r := Ok(comp);
    }
  }

  lemma EmptyAllowed(entries: seq<Entry>, defs: seq<CurrencyDef>)
    ensures NetAllowed(entries, [], defs)
  {
  }

  /** An account the batch touches is allowed exactly when its net final balance is. */
  lemma TouchedAllowed(entries: seq<Entry>, batch: seq<Entry>, defs: seq<CurrencyDef>, k: Account)
    requires k in Accounts(batch)
    ensures !AccountAllowed(entries, batch, defs, k) ==> !NetAllowed(entries, batch, defs)
    ensures exists e :: e in batch && e.currency == k.1
  {
    var e :| e in batch && (e.wallet, e.currency) == k;
  }

  /** Position of the first entry with the id, or the end. */
  function IndexOf(es: seq<Entry>, id: string): (i: nat)
    ensures i <= |es| && (i < |es| ==> es[i].id == id)
    ensures forall j :: 0 <= j < i ==> es[j].id != id
  {
    if es == [] then 0
    else if es[0].id == id then 0
    else
      var i := IndexOf(es[1..], id);
      assert forall j :: 1 <= j < i + 1 ==> es[j] == es[1..][j - 1];
      i + 1
  }

  predicate IsReversed(es: seq<Entry>, id: string) {
    exists e :: e in es && e.reverses == Some(id)
  }

  predicate Reversible(
      es: seq<Entry>, seen: set<Key>, id: string, reason: string, now: int, freshId: string, defs: seq<CurrencyDef>) {
    var i := IndexOf(es, id);
    i < |es| && !IsReversed(es, id) && Accepts(es, seen, [Compensation(es[i], reason, now, freshId)], defs)
  }

  function Compensation(e: Entry, reason: string, now: int, freshId: string): Entry {
    e.(id := freshId, amount := -e.amount, reason := "reversal: " + reason, reference := "reversal:" + e.id,
       source := "system.reversal", occurredAt := now, reverses := Some(e.id), causation := e.id)
  }

  /** What undoes an entry: its amount taken back on the same account, under a reference of its own. */
  lemma CompensationIs(e: Entry, reason: string, now: int, freshId: string)
    ensures Compensation(e, reason, now, freshId)
            == Entry(freshId, e.wallet, e.currency, -e.amount, "system.reversal", "reversal: " + reason, e.correlation,
                     e.id, "reversal:" + e.id, now, Some(e.id))
  {
  }
}
