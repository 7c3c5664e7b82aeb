/** The wallet cache against the ledger, over every order of the four writers. */
module WalletAgreement {
  import opened Common
  import opened Ledger
  import opened WalletStore

  lemma BalanceOne(es: seq<Entry>, e: Entry, w: string, c: string)
    ensures Balance(es + [e], w, c) == Balance(es, w, c) + if On(e, w, c) then e.amount else 0
  {
    assert (es + [e])[..|es|] == es;
  }

  /** Overwriting the touched row with the recomputed sum keeps agreement. */
  lemma RecomputeAgrees(t: Tables, e: Entry)
    requires Agrees(t)
    ensures Agrees(t.(entries := t.entries + [e],
                      wallets := t.wallets[(e.wallet, e.currency) := Balance(t.entries + [e], e.wallet, e.currency)]))
  {
    var balance := Balance(t.entries + [e], e.wallet, e.currency);
    var t' := t.(entries := t.entries + [e], wallets := t.wallets[(e.wallet, e.currency) := balance]);
    forall k: Account ensures Cached(t', k) == Balance(t'.entries, k.0, k.1) {
      assert Cached(t, k) == Balance(t.entries, k.0, k.1);
      BalanceOne(t.entries, e, k.0, k.1);
    }
  }

  lemma {:induction false} CommandsAgree(t: Tables, ps: map<string, Policy>, user: string, cs: seq<Command>)
    requires Agrees(t)
    ensures var r := ApplyAll(t, ps, user, cs);
            r.Applied? ==> Agrees(r.tables) && r.applied + r.skipped == |cs|
    decreases |cs|
  {
    hide Agrees, Cached;
    if cs == [] {
    } else {
      CommandsAgree(t, ps, user, cs[..|cs| - 1]);
      var r := ApplyAll(t, ps, user, cs[..|cs| - 1]);
      if r.Applied? { RecomputeAgrees(r.tables, EntryOf(user, cs[|cs| - 1])); }
    }
  }

  /** How far a credit drives one wallet row from its ledger sum. */
  ghost function Gap(t: Tables, e: Entry, k: Account): int {
    if Recorded(t.entries, e) && On(e, k.0, k.1) then e.amount else 0
  }

  lemma CreditGap(t: Tables, e: Entry, k: Account)
    requires Cached(t, k) == Balance(t.entries, k.0, k.1)
    ensures var t' := Credit(t, e);
            Cached(t', k) - Balance(t'.entries, k.0, k.1) == Gap(t, e, k)
  {
    hide Recorded;
    BalanceOne(t.entries, e, k.0, k.1);
  }

  /** An increment agrees exactly when the ledger row it stands for really went in, or is worth nothing. */
  lemma CreditAgrees(t: Tables, e: Entry)
    requires Agrees(t)
    ensures Agrees(Credit(t, e)) <==> !Recorded(t.entries, e) || e.amount == 0
  {
    hide Credit, Cached, Balance;
    var t' := Credit(t, e);
    var own: Account := (e.wallet, e.currency);
    forall k: Account ensures Cached(t', k) == Balance(t'.entries, k.0, k.1) <==> Gap(t, e, k) == 0 {
      CreditGap(t, e, k);
    }
    assert Gap(t, e, own) == if Recorded(t.entries, e) then e.amount else 0;
  }

  /** The purchase writes a ledger row of its own or none. */
  ghost predicate Credited(t: Tables, products: map<string, Product>, req: PurchaseRequest, ids: PurchaseIds) {
    PurchaseResult(t, products, req, ids).Completed? && products[req.product].kind.Credits?
  }

  /**
   * A purchase keeps the cache exactly when it credits nothing, or its transaction id is new to the ledger, or the
   * discounted price is zero.
   */
  lemma PurchaseAgrees(t: Tables, products: map<string, Product>, req: PurchaseRequest, ids: PurchaseIds)
    requires Agrees(t)
    ensures Agrees(Purchase(t, products, req, ids)) <==>
            || !Credited(t, products, req, ids)
            || ("purchase", ids.transaction) !in Keys(t.entries)
            || Price(products[req.product].price, req.discount) == 0
  {
    hide Agrees, Credit, Price, Keys;
    if PurchaseResult(t, products, req, ids).Completed? {
      var t' := t.(transactions := t.transactions + {PurchaseKey(req, ids)});
      OtherTables(t, t');
      if products[req.product].kind.Credits? { CreditAgrees(t', CreditEntry(req, products[req.product], ids)); }
    }
  }

  lemma OtherTables(t: Tables, t': Tables)
    requires Agrees(t) && t'.entries == t.entries && t'.wallets == t.wallets
    ensures Agrees(t')
  {
    assert forall k: Account :: Cached(t', k) == Cached(t, k);
  }

  function Repointed(e: Entry, from: string, to: string): Entry {
    if e.wallet == from then e.(wallet := to) else e
  }

  lemma {:induction false} RepointKeys(es: seq<Entry>, from: string, to: string)
    ensures |Repoint(es, from, to)| == |es| && Keys(Repoint(es, from, to)) == Keys(es)
  {
    hide Keys;
    if es == [] {
    } else {
      var n := |es| - 1;
      RepointKeys(es[..n], from, to);
      KeysOne(es[..n], es[n]);
      KeysOne(Repoint(es[..n], from, to), Repointed(es[n], from, to));
      assert es == es[..n] + [es[n]];
    }
  }

  lemma {:induction false} RepointBalance(es: seq<Entry>, from: string, to: string, w: string, c: string)
    requires from != to
    ensures Balance(Repoint(es, from, to), w, c) ==
            if w == from then 0 else if w == to then Balance(es, to, c) + Balance(es, from, c) else Balance(es, w, c)
  {
    if es == [] {
    } else {
      var n := |es| - 1;
      RepointBalance(es[..n], from, to, w, c);
      assert Repoint(es, from, to) == Repoint(es[..n], from, to) + [Repointed(es[n], from, to)];
      hide Repoint;
      BalanceOne(Repoint(es[..n], from, to), Repointed(es[n], from, to), w, c);
    }
  }

  lemma KeysOne(es: seq<Entry>, e: Entry)
    ensures Keys(es + [e]) == Keys(es) + {KeyOf(e)}
  {
  }

  /** The merge moves whole balances: nothing is lost, nothing stays behind, references stay as they were. */
  lemma MergeAgrees(t: Tables, from: string, to: string)
    requires Agrees(t)
    ensures Agrees(Merge(t, from, to))
    ensures Keys(Merge(t, from, to).entries) == Keys(t.entries)
    ensures MayMerge(t, from, to) && !Clash(t.owned, from, to) ==> forall c ::
              && Cached(Merge(t, from, to), (to, c)) == Cached(t, (to, c)) + Cached(t, (from, c))
              && Cached(Merge(t, from, to), (from, c)) == 0
  {
    if MayMerge(t, from, to) && !Clash(t.owned, from, to) {
      var t' := Merge(t, from, to);
      RepointKeys(t.entries, from, to);
      forall k: Account ensures Cached(t', k) == Balance(t'.entries, k.0, k.1) {
        RepointBalance(t.entries, from, to, k.0, k.1);
        MergedRow(t, from, to, k);
        assert Cached(t, (from, k.1)) == Balance(t.entries, from, k.1);
        assert Cached(t, k) == Balance(t.entries, k.0, k.1);
      }
      forall c ensures Cached(t', (to, c)) == Cached(t, (to, c)) + Cached(t, (from, c)) && Cached(t', (from, c)) == 0 {
        MergedRow(t, from, to, (to, c));
        MergedRow(t, from, to, (from, c));
      }
    }
  }

  lemma MergedRow(t: Tables, from: string, to: string, k: Account)
    requires MayMerge(t, from, to) && !Clash(t.owned, from, to)
    ensures Cached(Merge(t, from, to), k) ==
            if k.0 == from then 0 else Cached(t, k) + if k.0 == to then Cached(t, (from, k.1)) else 0
  {
    if k.0 == to && (from, k.1) in t.wallets {
      assert k in set x | x in t.wallets.Keys && x.0 == from :: (to, x.1);
    }
  }

  /** All the source had is the target's, row by row; all else is as it was. */
  ghost predicate Arrived(t: Tables, after: Tables, from: string, to: string) {
    && after.users == t.users - {from}
    && (forall table, user, key :: OwnedRow(table, user, key) in after.owned <==>
          user != from
          && (OwnedRow(table, user, key) in t.owned || (user == to && OwnedRow(table, from, key) in t.owned)))
    && |after.entries| == |t.entries|
    && (forall i :: 0 <= i < |t.entries| ==>
          after.entries[i] == if t.entries[i].wallet == from then t.entries[i].(wallet := to) else t.entries[i])
    && after.transactions == t.transactions
  }

  lemma {:induction false} RepointAt(es: seq<Entry>, from: string, to: string, i: nat)
    requires i < |es|
    ensures |Repoint(es, from, to)| == |es| && Repoint(es, from, to)[i] == Repointed(es[i], from, to)
  {
    var n := |es| - 1;
    RepointKeys(es[..n], from, to);
    if i < n { RepointAt(es[..n], from, to, i); }
  }

  lemma MergeArrives(t: Tables, from: string, to: string)
    requires MayMerge(t, from, to) && !Clash(t.owned, from, to)
    ensures Arrived(t, Merge(t, from, to), from, to)
  {
    hide Repoint, MergedWallets, MergedTracks;
    var after := Merge(t, from, to);
    RepointKeys(t.entries, from, to);
    forall i | 0 <= i < |t.entries| ensures after.entries[i] == Repointed(t.entries[i], from, to) {
      RepointAt(t.entries, from, to, i);
    }
    forall table, user, key
      ensures OwnedRow(table, user, key) in after.owned <==>
              user != from
              && (OwnedRow(table, user, key) in t.owned || (user == to && OwnedRow(table, from, key) in t.owned))
    {
      OwnedArrives(t.owned, from, to, OwnedRow(table, user, key));
    }
  }

  lemma OwnedArrives(owned: set<OwnedRow>, from: string, to: string, r: OwnedRow)
    requires from != to
    ensures r in (set x | x in owned :: Reowned(x, from, to)) <==>
            r.user != from && (r in owned || (r.user == to && r.(user := from) in owned))
  {
    if r.user == to && r.(user := from) in owned { assert Reowned(r.(user := from), from, to) == r; }
    if r in owned { assert r.user != from ==> Reowned(r, from, to) == r; }
  }

  /**
   * A valid merge happens exactly when re-owning keeps every row apart; otherwise the source stays a user of its own
   * and nothing is moved.
   */
  lemma MergeHappens(t: Tables, from: string, to: string)
    requires from != "" && to != "" && from != to && from in t.users && to in t.users
    ensures from !in Merge(t, from, to).users <==>
            forall r, s :: r in t.owned && s in t.owned && Reowned(r, from, to) == Reowned(s, from, to) ==> r == s
    ensures from in Merge(t, from, to).users ==> Merge(t, from, to) == t
    ensures from !in Merge(t, from, to).users ==> Arrived(t, Merge(t, from, to), from, to)
  {
    if !Clash(t.owned, from, to) { MergeArrives(t, from, to); }
    if r :| r in t.owned && r.user == from && Reowned(r, from, to) in t.owned {
      assert Reowned(Reowned(r, from, to), from, to) == Reowned(r, from, to);
    } else {
      forall r, s | r in t.owned && s in t.owned && Reowned(r, from, to) == Reowned(s, from, to) ensures r == s {
        assert r.user == from ==> r.(user := to) in t.owned || s.user == from;
      }
    }
  }

  /** A merge that names no user, one user twice, or one that is unknown or merged already changes nothing. */
  lemma InvalidMerge(t: Tables, from: string, to: string)
    requires "" in {from, to} || from == to || !({from, to} <= t.users)
    ensures Merge(t, from, to) == t
  {
  }

  /** Both users took up one challenge: the merge is refused, and the source is not archived. */
  lemma SharedChallengeRefusesMerge(t: Tables, from: string, to: string, challenge: string)
    requires MayMerge(t, from, to)
    requires t.owned == {OwnedRow("challenge_progress", from, challenge), OwnedRow("challenge_progress", to, challenge)}
    ensures Merge(t, from, to) == t && from in Merge(t, from, to).users
  {
    var own, other := OwnedRow("challenge_progress", from, challenge), OwnedRow("challenge_progress", to, challenge);
    assert own in t.owned && Reowned(own, from, to) == other;
  }

  // ---- Every run of serial transactions --------------------------------------------------

  datatype Write =
    | EngineWrite(policies: map<string, Policy>, user: string, commands: seq<Command>)
    | AdjustWrite(entry: Entry, allowNegative: bool)
    | PurchaseWrite(products: map<string, Product>, request: PurchaseRequest, ids: PurchaseIds)
    | MergeWrite(source: string, target: string)
    | SignUp(user: string)
    /** Any other writer's change to the tables the merge re-owns. */
    | OwnedWrite(owned: set<OwnedRow>)

  /** A purchase draws a transaction id no ledger row refers to. */
  ghost predicate FreshWrite(t: Tables, w: Write) {
    w.PurchaseWrite? ==> ("purchase", w.ids.transaction) !in Keys(t.entries)
  }

  function Perform(t: Tables, w: Write): Tables {
    match w
    case EngineWrite(ps, user, cs) =>
      var r := ApplyAll(t, ps, user, cs);
      if r.Applied? then r.tables else t
    case AdjustWrite(e, allowNegative) => Adjust(t, e, allowNegative)
    case PurchaseWrite(products, req, ids) => Purchase(t, products, req, ids)
    case MergeWrite(source, target) => Merge(t, source, target)
    case SignUp(user) => t.(users := t.users + {user})
    case OwnedWrite(owned) => t.(owned := owned)
  }

  function PerformAll(ws: seq<Write>): Tables {
    if ws == [] then NO_ROWS else Perform(PerformAll(ws[..|ws| - 1]), ws[|ws| - 1])
  }

  ghost predicate FreshRun(ws: seq<Write>) {
    forall i :: 0 <= i < |ws| ==> FreshWrite(PerformAll(ws[..i]), ws[i])
  }

  /** Every reachable wallet row, or zero, is the sum of that wallet's ledger entries. */
  lemma {:induction false} CacheAgreesWithLedger(ws: seq<Write>)
    requires FreshRun(ws)
    ensures Agrees(PerformAll(ws))
  {
    if ws == [] {
      NothingAgrees();
    } else {
      var n := |ws| - 1;
      assert forall i :: 0 <= i < n ==> ws[..n][..i] == ws[..i];
      CacheAgreesWithLedger(ws[..n]);
      PerformAgrees(PerformAll(ws[..n]), ws[n]);
    }
  }

  lemma NothingAgrees()
    ensures Agrees(NO_ROWS)
  {
  }

  lemma PerformAgrees(t: Tables, w: Write)
    requires Agrees(t) && FreshWrite(t, w)
    ensures Agrees(Perform(t, w))
  {
    hide Agrees, Purchase, Merge, ApplyAll, Recorded;
    match w {
      case EngineWrite(ps, user, cs) => CommandsAgree(t, ps, user, cs);
      case AdjustWrite(e, _) => RecomputeAgrees(t, e);
      case PurchaseWrite(products, req, ids) => PurchaseAgrees(t, products, req, ids);
      case MergeWrite(source, target) => MergeAgrees(t, source, target);
      case SignUp(user) => OtherTables(t, t.(users := t.users + {user}));
      case OwnedWrite(owned) => OtherTables(t, t.(owned := owned));
    }
  }

  // ---- A purchase key is spent once ------------------------------------------------------

  /** Any further writes. */
  function PerformFrom(t: Tables, ws: seq<Write>): Tables {
    if ws == [] then t else Perform(PerformFrom(t, ws[..|ws| - 1]), ws[|ws| - 1])
  }

  lemma {:induction false} CommandsKeepKeys(t: Tables, ps: map<string, Policy>, user: string, cs: seq<Command>)
    ensures ApplyAll(t, ps, user, cs).Applied? ==> ApplyAll(t, ps, user, cs).tables.transactions == t.transactions
    decreases |cs|
  {
    hide Balance, Allowed, PolicyFor, EntryOf;
    if cs == [] {
    } else {
      CommandsKeepKeys(t, ps, user, cs[..|cs| - 1]);
    }
  }

  /** No write gives a key back. */
  lemma {:induction false} KeysStaySpent(t: Tables, ws: seq<Write>)
    ensures t.transactions <= PerformFrom(t, ws).transactions
  {
    if ws == [] {
    } else {
      KeysStaySpent(t, ws[..|ws| - 1]);
      WriteKeepsKeys(PerformFrom(t, ws[..|ws| - 1]), ws[|ws| - 1]);
    }
  }

  lemma WriteKeepsKeys(t: Tables, w: Write)
    ensures t.transactions <= Perform(t, w).transactions
  {
    hide ApplyAll, Clash, Balance, Recorded;
    if w.EngineWrite? { CommandsKeepKeys(t, w.policies, w.user, w.commands); }
  }

  /**
   * A completed purchase spends its key: after any further writes a request with that key, under whatever ids and
   * for whatever product, completes nothing and changes nothing; a well-formed one is answered as repeated.
   */
  lemma PurchaseSpendsKey(
      t: Tables, products: map<string, Product>, req: PurchaseRequest, ids: PurchaseIds, ws: seq<Write>,
      products': map<string, Product>, again: PurchaseRequest, ids': PurchaseIds)
    requires PurchaseResult(t, products, req, ids).Completed?
    requires req.idempotencyKey == again.idempotencyKey != ""
    ensures var after := PerformFrom(Purchase(t, products, req, ids), ws);
            && Purchase(after, products', again, ids') == after
            && !PurchaseResult(after, products', again, ids').Completed?
            && (again.user != "" && again.product in products' && again.product != "" ==>
                  PurchaseResult(after, products', again, ids') == Repeated)
  {
    KeysStaySpent(Purchase(t, products, req, ids), ws);
    assert req.idempotencyKey in Purchase(t, products, req, ids).transactions;
    hide PerformFrom, Credit;
  }

  /** The `i`-th write is a purchase with this key, and it completes. */
  ghost predicate CompletesAt(ws: seq<Write>, i: nat, key: string)
    requires i < |ws|
  {
    && ws[i].PurchaseWrite? && ws[i].request.idempotencyKey == key
    && PurchaseResult(PerformAll(ws[..i]), ws[i].products, ws[i].request, ws[i].ids).Completed?
  }

  /** In no run of any writers does one key complete two purchases. */
  lemma OnePurchasePerKey(ws: seq<Write>, key: string, i: nat, j: nat)
    requires key != "" && i < |ws| && j < |ws| && CompletesAt(ws, i, key) && CompletesAt(ws, j, key)
    ensures i == j
  {
    if i < j { NotCompletedAgain(ws, key, i, j); }
    if j < i { NotCompletedAgain(ws, key, j, i); }
  }

  lemma NotCompletedAgain(ws: seq<Write>, key: string, i: nat, j: nat)
    requires key != "" && i < j < |ws| && CompletesAt(ws, i, key)
    ensures !CompletesAt(ws, j, key)
  {
    hide PurchaseResult, Purchase;
    var a, b := ws[i], ws[j];
    RunOn(ws[..j], i + 1);
    assert ws[..j][..i + 1] == ws[..i + 1] && ws[..i + 1][..i] == ws[..i];
    if b.PurchaseWrite? && b.request.idempotencyKey == key {
      PurchaseSpendsKey(PerformAll(ws[..i]), a.products, a.request, a.ids, ws[i + 1..j], b.products, b.request, b.ids);
      assert ws[..j][i + 1..] == ws[i + 1..j];
    }
  }

  /** A run is its beginning and then the rest. */
  lemma {:induction false} RunOn(ws: seq<Write>, i: nat)
    requires i <= |ws|
    ensures PerformAll(ws) == PerformFrom(PerformAll(ws[..i]), ws[i..])
    decreases |ws|
  {
    hide Perform;
    if i == |ws| {
      assert ws[..i] == ws && ws[i..] == [];
    } else {
      var n := |ws| - 1;
      RunOn(ws[..n], i);
      assert ws[..n][..i] == ws[..i] && ws[i..][..n - i] == ws[..n][i..] && ws[i..][n - i] == ws[n];
    }
  }

  /** Without a key of its own a well-formed request completes whenever its transaction id is new. */
  lemma KeylessAlwaysCompletes(t: Tables, products: map<string, Product>, req: PurchaseRequest, ids: PurchaseIds)
    requires req.idempotencyKey == "" && req.user != "" && req.product != "" && req.product in products
    ensures PurchaseResult(t, products, req, ids).Completed? <==> ids.transaction !in t.transactions
  {
  }

  /** What a completed purchase credits: the charged amount, to that user's wallet of the product's currency alone. */
  lemma PurchaseCredits(t: Tables, products: map<string, Product>, req: PurchaseRequest, ids: PurchaseIds)
    requires PurchaseResult(t, products, req, ids).Completed?
    ensures var p, r := products[req.product], PurchaseResult(t, products, req, ids);
            var after := Purchase(t, products, req, ids);
            && (forall k: Account :: Cached(after, k) == Cached(t, k)
                  + if p.kind.Credits? && k == (req.user, p.slug) then r.amount else 0)
            && after.entries
               == (if !p.kind.Credits? || ("purchase", ids.transaction) in Keys(t.entries) then t.entries
                   else t.entries + [Entry(ids.entry, req.user, p.slug, r.amount, "purchase", "purchase of " + p.name,
                                           "", "", ids.transaction, 0, None)])
            && after.users == t.users && after.tracks == t.tracks
  {
    hide Keys, Price;
  }

  /** The answers to a request: something missing, no such product, a key spent before, or the price charged. */
  lemma PurchaseAnswers(t: Tables, products: map<string, Product>, req: PurchaseRequest, ids: PurchaseIds)
    ensures var r, key := PurchaseResult(t, products, req, ids),
                          if req.idempotencyKey != "" then req.idempotencyKey else ids.transaction;
            && (r == Incomplete <==> "" in {req.user, req.product})
            && (r == UnknownProduct <==> r != Incomplete && req.product !in products)
            && (r == Repeated <==> r != Incomplete && r != UnknownProduct && key in t.transactions)
            && (r.Completed? ==> r.amount == Price(products[req.product].price, req.discount)
                                 && key in Purchase(t, products, req, ids).transactions)
            && (!r.Completed? ==> Purchase(t, products, req, ids) == t)
  {
  }

  /** A discount takes its percentage off the price; the rest is rounded toward zero to a whole amount. */
  lemma PriceIs(price: int, discount: Option<int>)
    ensures discount.None? || discount.value <= 0 ==> Price(price, discount) == price
    ensures discount.Some? && discount.value > 0 ==>
              var charged, rest := Price(price, discount), price * (100 - discount.value);
              if rest >= 0 then 100 * charged <= rest < 100 * charged + 100
              else 100 * charged - 100 < rest <= 100 * charged
  {
    if discount.Some? { TruncatedIs(price * (100 - discount.value)); }
  }

  lemma TruncatedIs(a: int)
    ensures var r := Truncated(a, 100); if a >= 0 then 100 * r <= a < 100 * r + 100 else 100 * r - 100 < a <= 100 * r
  {
  }

  /** May an engine command leave this sum: a currency without a policy has no cap and may not go below zero. */
  predicate MayHold(ps: map<string, Policy>, currency: string, sum: int) {
    && (sum < 0 ==> currency in ps && ps[currency].allowNegative)
    && (currency in ps && ps[currency].cap > 0 ==> sum <= ps[currency].cap)
  }

  /**
   * An earn or a spend: skipped when its reference is recorded; refused, with its whole transaction, exactly when
   * the sum it leaves is one the wallet may not hold; else it is one row and that sum, and no other wallet moves.
   */
  lemma CommandMoves(t: Tables, ps: map<string, Policy>, user: string, c: Command)
    requires Agrees(t) && !c.kind.OtherCommand? && !(c.kind.SpendCurrency? && c.amount < 0)
    ensures var currency := if c.currency == "" then "default" else c.currency;
            var k: Account, amount := (user, currency), if c.kind.SpendCurrency? then -c.amount else c.amount;
            var sum, r := Cached(t, k) + amount, ApplyCommand(t, ps, user, c);
            if (c.source, c.idempotencyKey) in Keys(t.entries) then r == Applied(t, 0, 1)
            else if !MayHold(ps, currency, sum) then r == RolledBack
            else
              && r.Applied? && r.applied == 1 && r.skipped == 0
              && r.tables.entries == t.entries
                   + [Entry(c.entryId, user, currency, amount, c.source, c.explanation, c.eventId, "", c.idempotencyKey,
                            0, None)]
              && Cached(r.tables, k) == sum
              && (forall other: Account :: other != k ==> Cached(r.tables, other) == Cached(t, other))
              && r.tables.users == t.users && r.tables.tracks == t.tracks && r.tables.owned == t.owned
              && r.tables.transactions == t.transactions
  {
    hide Keys, Balance;
    var e := EntryOf(user, c);
    assert Cached(t, (user, e.currency)) == Balance(t.entries, user, e.currency);
    BalanceOne(t.entries, e, user, e.currency);
  }

  /** A negative spend is refused; any other kind of command moves nothing and counts as its own table says. */
  lemma OtherCommands(t: Tables, ps: map<string, Policy>, user: string, c: Command)
    ensures c.kind.SpendCurrency? && c.amount < 0 ==> ApplyCommand(t, ps, user, c) == RolledBack
    ensures c.kind.OtherCommand? ==>
              ApplyCommand(t, ps, user, c) == if c.kind.applies then Applied(t, 1, 0) else Applied(t, 0, 1)
  {
  }

  /** A direct adjustment is refused exactly when it is new, would go below zero and may not; else its amount counts. */
  lemma AdjustMoves(t: Tables, e: Entry, allowNegative: bool)
    requires Agrees(t)
    ensures var k: Account, r := (e.wallet, e.currency), AdjustResult(t, e, allowNegative);
            var after := Adjust(t, e, allowNegative);
            var sum := Cached(t, k) + e.amount;
            && (KeyOf(e) in Keys(t.entries) ==> r == Adjusted(Cached(t, k), false) && after == t)
            && (KeyOf(e) !in Keys(t.entries) && sum < 0 && !allowNegative ==> r == Insufficient(sum) && after == t)
            && (KeyOf(e) !in Keys(t.entries) && (sum >= 0 || allowNegative) ==>
                  r == Adjusted(sum, true) && after.entries == t.entries + [e] && Cached(after, k) == sum
                  && forall other: Account :: other != k ==> Cached(after, other) == Cached(t, other))
  {
    hide Keys, Balance;
    assert Cached(t, (e.wallet, e.currency)) == Balance(t.entries, e.wallet, e.currency);
    BalanceOne(t.entries, e, e.wallet, e.currency);
  }
}
