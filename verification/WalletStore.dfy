/**
 * The control plane's money tables in one project environment: the ledger, the cached wallet rows, and the four
 * writers that keep them: engine commands, direct adjustments, credit purchases and the anonymous merge.
 */
module WalletStore {
  import opened Common
  import opened Ledger

  /** Commands that move no money count as applied or skipped by what other tables say: unknown ones never apply. */
  datatype CommandKind = AddCurrency | SpendCurrency | OtherCommand(applies: bool)

  datatype Command = Command(
    kind: CommandKind, currency: string, amount: int, source: string, idempotencyKey: string, explanation: string,
    eventId: string, entryId: string)

  datatype Policy = Policy(cap: int, allowNegative: bool)

  type TrackKey = (string, string)

  /** Experience of one user on one track. */
  datatype TrackRow = TrackRow(xp: int, level: int, highest: int)

  /** A row of a table the merge only re-owns; `key` is what its unique index adds to the user. */
  datatype OwnedRow = OwnedRow(table: string, user: string, key: string)

  datatype Tables = Tables(
    entries: seq<Entry>, wallets: map<Account, int>, transactions: set<string>, users: set<string>,
    tracks: map<TrackKey, TrackRow>, owned: set<OwnedRow>)

  const NO_ROWS := Tables([], map[], {}, {}, map[], {})

  /** Applied commands count; a command whose reference is already in the ledger is skipped. */
  datatype Applied = Applied(tables: Tables, applied: nat, skipped: nat) | RolledBack

  function CurrencyOf(c: Command): string { if c.currency == "" then "default" else c.currency }

  predicate MovesMoney(c: Command) { !c.kind.OtherCommand? }

  function SignedAmount(c: Command): int { if c.kind.SpendCurrency? then -c.amount else c.amount }

  function EntryOf(user: string, c: Command): Entry {
    Entry(c.entryId, user, CurrencyOf(c), SignedAmount(c), c.source, c.explanation, c.eventId, "", c.idempotencyKey, 0,
          None)
  }

  /** A currency without a policy is uncapped and may not go negative. */
  function PolicyFor(ps: map<string, Policy>, currency: string): CurrencyDef {
    if currency in ps then CurrencyDef(currency, ps[currency].cap, ps[currency].allowNegative)
    else CurrencyDef(currency, 0, false)
  }

  predicate Recorded(entries: seq<Entry>, e: Entry) { KeyOf(e) in Keys(entries) }

  /** INSERT .. ON CONFLICT DO NOTHING, then recompute the balance, check it, and overwrite the wallet row. */
  function ApplyLedger(t: Tables, ps: map<string, Policy>, user: string, c: Command): Applied {
    var e := EntryOf(user, c);
    if Recorded(t.entries, e) then Applied(t, 0, 1)
    else
      var entries := t.entries + [e];
      var balance := Balance(entries, user, e.currency);
      if !Allowed(PolicyFor(ps, e.currency), balance) then RolledBack
      else Applied(t.(entries := entries, wallets := t.wallets[(user, e.currency) := balance]), 1, 0)
  }

  function ApplyCommand(t: Tables, ps: map<string, Policy>, user: string, c: Command): Applied {
    match c.kind
    case AddCurrency => ApplyLedger(t, ps, user, c)
    case SpendCurrency => if c.amount < 0 then RolledBack else ApplyLedger(t, ps, user, c)
    case OtherCommand(applies) => if applies then Applied(t, 1, 0) else Applied(t, 0, 1)
  }

  /** The command loop of one transaction. */
  function ApplyAll(t: Tables, ps: map<string, Policy>, user: string, cs: seq<Command>): Applied {
    if cs == [] then Applied(t, 0, 0)
    else
      match ApplyAll(t, ps, user, cs[..|cs| - 1])
      case RolledBack => RolledBack
      case Applied(t', applied, skipped) =>
        match ApplyCommand(t', ps, user, cs[|cs| - 1])
        case RolledBack => RolledBack
        case Applied(t'', a, s) => Applied(t'', applied + a, skipped + s)
  }

  /** A wallet row, or zero when there is none. */
  function Cached(t: Tables, k: Account): int { if k in t.wallets then t.wallets[k] else 0 }

  /** The cache agrees with the ledger on every wallet. */
  ghost predicate Agrees(t: Tables) {
    forall k: Account :: Cached(t, k) == Balance(t.entries, k.0, k.1)
  }

  datatype Adjusted = Adjusted(balance: int, applied: bool) | Insufficient(balance: int)

  function AdjustResult(t: Tables, e: Entry, allowNegative: bool): Adjusted {
    if Recorded(t.entries, e) then Adjusted(Balance(t.entries, e.wallet, e.currency), false)
    else
      var balance := Balance(t.entries + [e], e.wallet, e.currency);
      if balance < 0 && !allowNegative then Insufficient(balance) else Adjusted(balance, true)
  }

  function Adjust(t: Tables, e: Entry, allowNegative: bool): Tables {
    var r := AdjustResult(t, e, allowNegative);
    if r.Adjusted? && r.applied then
      t.(entries := t.entries + [e], wallets := t.wallets[(e.wallet, e.currency) := r.balance])
    else t
  }

  // ---- Purchases -------------------------------------------------------------------------

  datatype ProductKind = Subscription | Entitlement | Credits | Consumable

  /** `slug` is the currency a credits product stands for. */
  datatype Product = Product(price: int, kind: ProductKind, name: string, slug: string)

  /** `discount` is the offer's percentage, if the request names an offer that exists. */
  datatype PurchaseRequest = PurchaseRequest(
    user: string, product: string, discount: Option<int>, idempotencyKey: string)

  /** Ids drawn for one purchase. */
  datatype PurchaseIds = PurchaseIds(transaction: string, entry: string)

  datatype Purchased = Incomplete | UnknownProduct | Repeated | Completed(amount: int)

  /** Division rounding toward zero, for a positive divisor. */
  function Truncated(a: int, b: int): int
    requires b > 0
  {
    if a >= 0 then a / b else -(-a / b)
  }

  function Price(price: int, discount: Option<int>): int {
    if discount.Some? && discount.value > 0 then Truncated(price * (100 - discount.value), 100) else price
  }

  /** Without a key of its own a request is identified by its transaction. */
  function PurchaseKey(req: PurchaseRequest, ids: PurchaseIds): string {
    if req.idempotencyKey == "" then ids.transaction else req.idempotencyKey
  }

  function CreditEntry(req: PurchaseRequest, p: Product, ids: PurchaseIds): Entry {
    Entry(ids.entry, req.user, p.slug, Price(p.price, req.discount), "purchase", "purchase of " + p.name, "", "",
          ids.transaction, 0, None)
  }

  /** The credits branch: the wallet is incremented whether or not the ledger row went in. */
  function Credit(t: Tables, e: Entry): Tables {
    var k := (e.wallet, e.currency);
    t.(entries := if Recorded(t.entries, e) then t.entries else t.entries + [e],
       wallets := t.wallets[k := Cached(t, k) + e.amount])
  }

  function PurchaseResult(
      t: Tables, products: map<string, Product>, req: PurchaseRequest, ids: PurchaseIds): Purchased
  {
    if req.user == "" || req.product == "" then Incomplete
    else if req.product !in products then UnknownProduct
    else if PurchaseKey(req, ids) in t.transactions then Repeated
    else Completed(Price(products[req.product].price, req.discount))
  }

  function Purchase(t: Tables, products: map<string, Product>, req: PurchaseRequest, ids: PurchaseIds): Tables {
    if !PurchaseResult(t, products, req, ids).Completed? then t
    else
      var p := products[req.product];
      var t' := t.(transactions := t.transactions + {PurchaseKey(req, ids)});
      if p.kind.Credits? then Credit(t', CreditEntry(req, p, ids)) else t'
  }

  // ---- The anonymous merge ---------------------------------------------------------------

  function Repoint(es: seq<Entry>, from: string, to: string): seq<Entry> {
    if es == [] then []
    else
      var e := es[|es| - 1];
      Repoint(es[..|es| - 1], from, to) + [if e.wallet == from then e.(wallet := to) else e]
  }

  /** Each currency the source holds is added onto the target's row; the source's rows are deleted. */
  function MergedWallets(w: map<Account, int>, from: string, to: string): map<Account, int> {
    map k | k in w.Keys + (set x | x in w.Keys && x.0 == from :: (to, x.1)) && k.0 != from ::
      (if k in w then w[k] else 0) + (if k.0 == to && (from, k.1) in w then w[(from, k.1)] else 0)
  }

  function TrackOf(tracks: map<TrackKey, TrackRow>, k: TrackKey): TrackRow {
    if k in tracks then tracks[k] else TrackRow(0, 0, 0)
  }

  /** Experience adds up; levels are the greater of the two. */
  function Joined(a: TrackRow, b: TrackRow): TrackRow {
    TrackRow(a.xp + b.xp, Max(a.level, b.level), Max(a.highest, b.highest))
  }

  /** Each track the source holds is joined to the target's row, or becomes it; the source's rows are deleted. */
  function MergedTracks(m: map<TrackKey, TrackRow>, from: string, to: string): map<TrackKey, TrackRow> {
    map k | k in m.Keys + (set x | x in m.Keys && x.0 == from :: (to, x.1)) && k.0 != from ::
      if k.0 == to && (from, k.1) in m then (if k in m then Joined(m[k], m[(from, k.1)]) else m[(from, k.1)]) else m[k]
  }

  predicate MayMerge(t: Tables, from: string, to: string) {
    from != "" && to != "" && from != to && from in t.users && to in t.users
  }

  function Reowned(r: OwnedRow, from: string, to: string): OwnedRow { if r.user == from then r.(user := to) else r }

  /** Re-owning some row would repeat one the target has: the unique index refuses it. */
  predicate Clash(owned: set<OwnedRow>, from: string, to: string) {
    exists r :: r in owned && r.user == from && Reowned(r, from, to) in owned
  }

  /** A refused statement aborts the transaction, so the statements after it fail and nothing is kept. */
  function Merge(t: Tables, from: string, to: string): Tables {
    if !MayMerge(t, from, to) || Clash(t.owned, from, to) then t
    else t.(wallets := MergedWallets(t.wallets, from, to), entries := Repoint(t.entries, from, to),
            users := t.users - {from}, tracks := MergedTracks(t.tracks, from, to),
            owned := set r | r in t.owned :: Reowned(r, from, to))
  }

  // ---- The writers as statements over the tables -----------------------------------------

  class Store {
    var entries: seq<Entry>
    var wallets: map<Account, int>
    var transactions: set<string>
    var users: set<string>
    var tracks: map<TrackKey, TrackRow>
    var owned: set<OwnedRow>

    constructor ()
      ensures View() == NO_ROWS
    {
      entries, wallets, transactions, users, tracks, owned := [], map[], {}, {}, map[], {};
    }

    ghost function View(): Tables
      reads this
    {
      Tables(entries, wallets, transactions, users, tracks, owned)
    }

    /** One command inside an open transaction; `ok` is false when the transaction must be rolled back. */
    method ApplyOne(ps: map<string, Policy>, user: string, c: Command) returns (ok: bool, applied: bool)
      modifies this`entries, this`wallets
      ensures var r := ApplyCommand(old(View()), ps, user, c);
              && (ok <==> r.Applied?)
              && (ok ==> View() == r.tables && r.applied == (if applied then 1 else 0) && r.skipped == 1 - r.applied)
    {
      ok, applied := true, true;
      if c.kind.OtherCommand? { return true, c.kind.applies; }
      if c.kind == SpendCurrency && c.amount < 0 { return false, false; }
      var e := EntryOf(user, c);
      if KeyOf(e) in Keys(entries) { return true, false; }
      entries := entries + [e];
      var balance := Balance(entries, user, e.currency);
      if !Allowed(PolicyFor(ps, e.currency), balance) { return false, false; }
      wallets := wallets[(user, e.currency) := balance];
    }

    /** The transaction: all commands or none. */
    method ApplyCommands(ps: map<string, Policy>, user: string, cs: seq<Command>) returns (r: Applied)
      modifies this`entries, this`wallets
      ensures r == ApplyAll(old(View()), ps, user, cs)
      ensures View() == if r.Applied? then r.tables else old(View())
    {
      hide ApplyCommand;
      var entriesBefore, walletsBefore := entries, wallets;
      var applied, skipped := 0, 0;
      for i := 0 to |cs|
        invariant transactions == old(transactions) && users == old(users)
        invariant tracks == old(tracks) && owned == old(owned)
        invariant ApplyAll(old(View()), ps, user, cs[..i]) == Applied(View(), applied, skipped)
      {
        assert cs[..i + 1][..i] == cs[..i];
        var ok, one := ApplyOne(ps, user, cs[i]);
        if !ok {
          RolledBackPrefix(old(View()), ps, user, cs, i + 1);
          entries, wallets := entriesBefore, walletsBefore;
          return RolledBack;
        }
        if one { applied := applied + 1; } else { skipped := skipped + 1; }
      }
      assert cs[..|cs|] == cs;
      r := Applied(Tables(entries, wallets, transactions, users, tracks, owned), applied, skipped);
    }

    method AdjustWallet(e: Entry, allowNegative: bool) returns (r: Adjusted)
      modifies this`entries, this`wallets
      ensures r == AdjustResult(old(View()), e, allowNegative) && View() == Adjust(old(View()), e, allowNegative)
    {
      if KeyOf(e) in Keys(entries) { return Adjusted(Balance(entries, e.wallet, e.currency), false); }
      var before := entries;
      entries := entries + [e];
      var balance := Balance(entries, e.wallet, e.currency);
      if balance < 0 && !allowNegative {
        entries := before;
        return Insufficient(balance);
      }
      wallets := wallets[(e.wallet, e.currency) := balance];
      r := Adjusted(balance, true);
    }

    method PurchaseProduct(products: map<string, Product>, req: PurchaseRequest, ids: PurchaseIds)
      returns (r: Purchased)
      modifies this`entries, this`wallets, this`transactions
      ensures r == PurchaseResult(old(View()), products, req, ids)
      ensures View() == Purchase(old(View()), products, req, ids)
    {
      if req.user == "" || req.product == "" { return Incomplete; }
      if req.product !in products { return UnknownProduct; }
      var p := products[req.product];
      var amount := p.price;
      if req.discount.Some? && req.discount.value > 0 { amount := Truncated(amount * (100 - req.discount.value), 100); }
      var key := if req.idempotencyKey == "" then ids.transaction else req.idempotencyKey;
      if key in transactions { return Repeated; }
      transactions := transactions + {key};
      if p.kind.Credits? {
        var e := Entry(ids.entry, req.user, p.slug, amount, "purchase", "purchase of " + p.name, "", "",
                       ids.transaction, 0, None);
        if KeyOf(e) !in Keys(entries) { entries := entries + [e]; }
        var k := (req.user, p.slug);
        wallets := wallets[k := (if k in wallets then wallets[k] else 0) + amount];
      }
      r := Completed(amount);
    }

    /** One transaction; a clash in a re-owned table is tolerated where it occurs but fails what follows. */
    method MergeAnonymous(from: string, to: string) returns (ok: bool)
      modifies this
      ensures ok == (MayMerge(old(View()), from, to) && !Clash(old(owned), from, to))
      ensures View() == Merge(old(View()), from, to)
    {
      ok := from != "" && to != "" && from != to && from in users && to in users;
      if !ok { return; }
      var tracksBefore := tracks;
      tracks := MergedTracks(tracks, from, to);
      if Clash(owned, from, to) {
        tracks := tracksBefore;
        return false;
      }
      owned := set r | r in owned :: Reowned(r, from, to);
      wallets := MergedWallets(wallets, from, to);
      entries := Repoint(entries, from, to);
      users := users - {from};
    }
  }

  lemma {:induction false} RolledBackPrefix(t: Tables, ps: map<string, Policy>, user: string, cs: seq<Command>, i: nat)
    requires i <= |cs| && ApplyAll(t, ps, user, cs[..i]).RolledBack?
    ensures ApplyAll(t, ps, user, cs).RolledBack?
    decreases |cs| - i
  {
    if i == |cs| {
      assert cs[..i] == cs;
    } else {
      assert cs[..i + 1][..i] == cs[..i];
      RolledBackPrefix(t, ps, user, cs, i + 1);
    }
  }
}
