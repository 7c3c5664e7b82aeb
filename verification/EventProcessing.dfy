/** Concurrent, crashing and retried processors of stored events, against one set of tables. */
module EventProcessing {
  import opened Ledger
  import opened WalletStore
  import opened CommandKeys

  datatype Status = Received | Processed | Failed

  /** Where a processor stands: nothing in hand, an outcome to apply, or a failure to report. */
  datatype Processor =
    | Idle
    | Holding(event: string, user: string, policies: map<string, Policy>, commands: seq<Command>)
    | Failing(event: string)

  datatype Sys = Sys(
    tables: Tables, status: map<string, Status>, processors: map<nat, Processor>,
    commits: seq<string>, lateMarks: seq<string>)

  datatype Step =
    /** The engine answered with an outcome for the event; any processor may start, or start over, any time. */
    | Evaluate(p: nat, event: string, user: string, policies: map<string, Policy>, commands: seq<Command>)
    | EngineFails(p: nat, event: string)
    /** The apply transaction; `storeFails`: an error rolled it back; `replyLost`: one was reported after the commit. */
    | Apply(p: nat, storeFails: bool, replyLost: bool)
    | MarkFailed(p: nat)
    | Crash(p: nat)

  function At(s: Sys, p: nat): Processor { if p in s.processors then s.processors[p] else Idle }

  function StatusOf(s: Sys, event: string): Status { if event in s.status then s.status[event] else Received }

  ghost predicate Enabled(s: Sys, step: Step) {
    match step
    case Apply(p, _, _) => At(s, p).Holding?
    case MarkFailed(p) => At(s, p).Failing?
    case _ => true
  }

  /** The row lock makes the transaction one step; a processed event is left alone. */
  function ApplyOutcome(s: Sys, p: nat, storeFails: bool, replyLost: bool): Sys
    requires At(s, p).Holding?
  {
    var h := At(s, p);
    var r := ApplyAll(s.tables, h.policies, h.user, h.commands);
    if StatusOf(s, h.event) == Processed then s.(processors := s.processors[p := Idle])
    else if storeFails || r.RolledBack? then s.(processors := s.processors[p := Failing(h.event)])
    else
      s.(tables := r.tables, status := s.status[h.event := Processed], commits := s.commits + [h.event],
         processors := s.processors[p := if replyLost then Failing(h.event) else Idle])
  }

  datatype Transaction = Replayed(skipped: nat) | Committed(applied: nat, skipped: nat) | Aborted

  /** The apply transaction on the tables: status check, commands, then the rest of the outcome, all or nothing. */
  method Transact(
      store: Store, status: Status, ps: map<string, Policy>, user: string, cs: seq<Command>, storeFails: bool)
    returns (after: Status, tx: Transaction)
    modifies store
    ensures var r := ApplyAll(old(store.View()), ps, user, cs);
            if status == Processed then
              after == Processed && tx == Replayed(|cs|) && store.View() == old(store.View())
            else if storeFails || r.RolledBack? then
              after == status && tx == Aborted && store.View() == old(store.View())
            else
              after == Processed && tx == Committed(r.applied, r.skipped) && store.View() == r.tables
  {
    if status == Processed { return Processed, Replayed(|cs|); }
    var entries, wallets := store.entries, store.wallets;
    var r := store.ApplyCommands(ps, user, cs);
    if r.RolledBack? { return status, Aborted; }
    if storeFails {
      store.entries, store.wallets := entries, wallets;
      return status, Aborted;
    }
    after, tx := Processed, Committed(r.applied, r.skipped);
  }

  /** The failure report is its own statement, outside any transaction and blind to the current status. */
  function Mark(s: Sys, p: nat): Sys
    requires At(s, p).Failing?
  {
    var event := At(s, p).event;
    s.(status := s.status[event := Failed], processors := s.processors[p := Idle],
       lateMarks := if StatusOf(s, event) == Processed then s.lateMarks + [event] else s.lateMarks)
  }

  ghost function Next(s: Sys, step: Step): Sys {
    if !Enabled(s, step) then s
    else
      match step
      case Evaluate(p, event, user, ps, cs) => s.(processors := s.processors[p := Holding(event, user, ps, cs)])
      case EngineFails(p, event) => s.(processors := s.processors[p := Failing(event)])
      case Apply(p, storeFails, replyLost) => ApplyOutcome(s, p, storeFails, replyLost)
      case MarkFailed(p) => Mark(s, p)
      case Crash(p) => s.(processors := s.processors[p := Idle])
  }

  ghost function Run(s: Sys, steps: seq<Step>): Sys {
    if steps == [] then s else Next(Run(s, steps[..|steps| - 1]), steps[|steps| - 1])
  }

  /** What each step does to the processor that takes it; every other processor is where it was. */
  lemma ProcessorMoves(s: Sys, step: Step, other: nat)
    requires Enabled(s, step)
    ensures var after := Next(s, step);
            && (other != step.p ==> At(after, other) == At(s, other))
            && match step
               case Evaluate(p, event, user, ps, cs) => At(after, p) == Holding(event, user, ps, cs)
               case EngineFails(p, event) => At(after, p) == Failing(event)
               case Apply(p, storeFails, replyLost) =>
                 var h := At(s, p);
                 var fails := storeFails || ApplyAll(s.tables, h.policies, h.user, h.commands).RolledBack?;
                 At(after, p)
                 == if StatusOf(s, h.event) != Processed && (fails || replyLost) then Failing(h.event) else Idle
               case MarkFailed(p) => At(after, p) == Idle
               case Crash(p) => At(after, p) == Idle
  {
    hide ApplyAll;
  }

  function Start(t: Tables): Sys { Sys(t, map[], map[], [], []) }

  // ---- What every run keeps --------------------------------------------------------------

  function Count(xs: seq<string>, x: string): nat {
    if xs == [] then 0 else Count(xs[..|xs| - 1], x) + if xs[|xs| - 1] == x then 1 else 0
  }

  lemma CountOne(xs: seq<string>, y: string, x: string)
    ensures Count(xs + [y], x) == Count(xs, x) + if y == x then 1 else 0
  {
    assert (xs + [y])[..|xs|] == xs;
  }

  /** Commits outnumber late failure marks by one while the event stands processed, and equal them otherwise. */
  ghost predicate Counted(s: Sys, event: string) {
    Count(s.commits, event) == Count(s.lateMarks, event) + if StatusOf(s, event) == Processed then 1 else 0
  }

  ghost predicate CommitsCounted(s: Sys) { forall event :: Counted(s, event) }

  ghost predicate Inv(s: Sys) {
    DistinctKeys(s.tables.entries) && CommitsCounted(s)
  }

  /** Applying commands only appends, never repeats a reference, and afterwards every command is recorded. */
  lemma {:induction false} ApplyAllAppends(t: Tables, ps: map<string, Policy>, user: string, cs: seq<Command>)
    requires DistinctKeys(t.entries) && ApplyAll(t, ps, user, cs).Applied?
    ensures var after := ApplyAll(t, ps, user, cs).tables.entries;
            && t.entries <= after && DistinctKeys(after)
            && (forall c :: c in cs && MovesMoney(c) ==> KeyOf(EntryOf(user, c)) in Keys(after))
    decreases |cs|
  {
    if cs == [] {
    } else {
      var n := |cs| - 1;
      ApplyAllAppends(t, ps, user, cs[..n]);
      ApplyOneAppends(ApplyAll(t, ps, user, cs[..n]).tables, ps, user, cs[n]);
      assert forall c :: c in cs ==> c in cs[..n] || c == cs[n];
    }
  }

  lemma ApplyOneAppends(t: Tables, ps: map<string, Policy>, user: string, c: Command)
    requires DistinctKeys(t.entries) && ApplyCommand(t, ps, user, c).Applied?
    ensures var after := ApplyCommand(t, ps, user, c).tables.entries;
            && t.entries <= after && DistinctKeys(after) && Keys(t.entries) <= Keys(after)
            && (MovesMoney(c) ==> KeyOf(EntryOf(user, c)) in Keys(after))
  {
    hide Balance, Allowed, PolicyFor;
    var e := EntryOf(user, c);
    if MovesMoney(c) && !Recorded(t.entries, e) {
      assert forall i :: 0 <= i < |t.entries| ==> KeyOf(t.entries[i]) in Keys(t.entries);
      assert e in t.entries + [e];
    }
  }

  /** Applying again what is already recorded changes no money. */
  lemma {:induction false} ReplayChangesNothing(t: Tables, ps: map<string, Policy>, user: string, cs: seq<Command>)
    requires forall c :: c in cs && MovesMoney(c) ==> Recorded(t.entries, EntryOf(user, c))
    ensures var r := ApplyAll(t, ps, user, cs); r.Applied? ==> r.tables == t
    ensures (forall c :: c in cs ==> !(c.kind.SpendCurrency? && c.amount < 0)) ==> ApplyAll(t, ps, user, cs).Applied?
    decreases |cs|
  {
    if cs == [] {
    } else {
      ReplayChangesNothing(t, ps, user, cs[..|cs| - 1]);
    }
  }

  lemma ApplyKeeps(s: Sys, p: nat, storeFails: bool, replyLost: bool)
    requires Inv(s) && At(s, p).Holding?
    ensures Inv(ApplyOutcome(s, p, storeFails, replyLost))
    ensures s.tables.entries <= ApplyOutcome(s, p, storeFails, replyLost).tables.entries
  {
    hide ApplyAll, DistinctKeys;
    var h := At(s, p);
    var r := ApplyAll(s.tables, h.policies, h.user, h.commands);
    if StatusOf(s, h.event) != Processed && !storeFails && r.Applied? {
      ApplyAllAppends(s.tables, h.policies, h.user, h.commands);
      var s' := ApplyOutcome(s, p, storeFails, replyLost);
      forall event
        ensures Counted(s', event)
      {
        assert Counted(s, event);
        CountOne(s.commits, h.event, event);
      }
    } else {
      var s' := ApplyOutcome(s, p, storeFails, replyLost);
      assert forall event :: Counted(s, event) ==> Counted(s', event);
    }
  }

  lemma MarkKeeps(s: Sys, p: nat)
    requires Inv(s) && At(s, p).Failing?
    ensures Inv(Mark(s, p))
  {
    hide DistinctKeys;
    var s', failed := Mark(s, p), At(s, p).event;
    forall event
      ensures Counted(s', event)
    {
      assert Counted(s, event);
      CountOne(s.lateMarks, failed, event);
    }
  }

  lemma NextKeeps(s: Sys, step: Step)
    requires Inv(s)
    ensures Inv(Next(s, step)) && s.tables.entries <= Next(s, step).tables.entries
  {
    hide DistinctKeys;
    if Enabled(s, step) {
      match step {
        case Apply(p, storeFails, replyLost) => ApplyKeeps(s, p, storeFails, replyLost);
        case MarkFailed(p) => MarkKeeps(s, p);
        case _ => assert forall event :: Counted(s, event) ==> Counted(Next(s, step), event);
      }
    }
  }

  lemma {:induction false} RunKeeps(s: Sys, steps: seq<Step>)
    requires Inv(s)
    ensures Inv(Run(s, steps)) && s.tables.entries <= Run(s, steps).tables.entries
  {
    hide DistinctKeys;
    if steps == [] {
    } else {
      RunKeeps(s, steps[..|steps| - 1]);
      NextKeeps(Run(s, steps[..|steps| - 1]), steps[|steps| - 1]);
    }
  }

  /** What a commit wrote, or found written, is there after any further steps. */
  lemma CommittedStays(s: Sys, p: nat, replyLost: bool, steps: seq<Step>)
    requires Inv(s) && At(s, p).Holding?
    requires ApplyOutcome(s, p, false, replyLost).commits == s.commits + [At(s, p).event]
    ensures var h := At(s, p);
            var later := Run(ApplyOutcome(s, p, false, replyLost), steps);
            forall c :: c in h.commands && MovesMoney(c) ==> Recorded(later.tables.entries, EntryOf(h.user, c))
  {
    hide Inv, ApplyAll, DistinctKeys, Run;
    var h := At(s, p);
    ApplyKeeps(s, p, false, replyLost);
    RunKeeps(ApplyOutcome(s, p, false, replyLost), steps);
    assert DistinctKeys(s.tables.entries) by { InvKeys(s); }
    ApplyAllAppends(s.tables, h.policies, h.user, h.commands);
  }

  lemma InvKeys(s: Sys)
    requires Inv(s)
    ensures DistinctKeys(s.tables.entries)
  {
  }

  /** The row a command of this origin, event and position would write. */
  ghost predicate RowOf(e: Entry, source: string, event: string, index: nat) {
    KeyOf(e) == (source, KeyFor(source, event, index))
  }

  /**
   * After any run of any number of processors: each (source, event, index) has at most one ledger row, no row
   * belongs to two of them. An event was applied as often as a failure report overwrote its processed status, and
   * once more while it stands processed; so at most once exactly when no report did, or one did and it is not
   * processed since.
   */
  lemma ExactlyOnce(t: Tables, steps: seq<Step>)
    requires DistinctKeys(t.entries)
    ensures var s := Run(Start(t), steps);
            forall source, event, index, i, j | 0 <= i < |s.tables.entries| && 0 <= j < |s.tables.entries| ::
              RowOf(s.tables.entries[i], source, event, index) && RowOf(s.tables.entries[j], source, event, index)
              ==> i == j
    ensures forall e, source, event, index, source', event', index' ::
              RowOf(e, source, event, index) && RowOf(e, source', event', index')
              ==> source == source' && event == event' && index == index'
    ensures var s := Run(Start(t), steps);
            forall event ::
              && Count(s.commits, event)
                 == Count(s.lateMarks, event) + (if StatusOf(s, event) == Processed then 1 else 0)
              && (Count(s.commits, event) <= 1 <==>
                    Count(s.lateMarks, event) == 0
                    || (Count(s.lateMarks, event) == 1 && StatusOf(s, event) != Processed))
  {
    hide Run, KeyFor, DistinctKeys;
    assert Inv(Start(t)) by { assert forall event :: Counted(Start(t), event); }
    RunKeeps(Start(t), steps);
    var s := Run(Start(t), steps);
    RowsDistinct(s.tables.entries);
    forall event
      ensures Count(s.commits, event)
              == Count(s.lateMarks, event) + (if StatusOf(s, event) == Processed then 1 else 0)
    {
      CountedInRun(s, event);
    }
    forall e, source, event, index, source', event', index' |
      RowOf(e, source, event, index) && RowOf(e, source', event', index')
      ensures source == source' && event == event' && index == index'
    {
      KeyInjective(source, event, index, event', index');
    }
  }

  lemma CountedInRun(s: Sys, event: string)
    requires Inv(s)
    ensures Counted(s, event)
  {
  }

  lemma RowsDistinct(rows: seq<Entry>)
    requires DistinctKeys(rows)
    ensures forall source, event, index, i, j | 0 <= i < |rows| && 0 <= j < |rows| ::
              RowOf(rows[i], source, event, index) && RowOf(rows[j], source, event, index) ==> i == j
  {
  }

  lemma RunOne(s: Sys, steps: seq<Step>, step: Step)
    ensures Run(s, steps + [step]) == Next(Run(s, steps), step)
  {
    assert (steps + [step])[..|steps|] == steps;
  }

  /** A held outcome commits exactly when the event does not stand processed and nothing fails. */
  lemma CommitsExactly(s: Sys, p: nat, storeFails: bool, replyLost: bool)
    requires At(s, p).Holding?
    ensures var h := At(s, p);
            var committed := StatusOf(s, h.event) != Processed && !storeFails
                             && ApplyAll(s.tables, h.policies, h.user, h.commands).Applied?;
            ApplyOutcome(s, p, storeFails, replyLost).commits == if committed then s.commits + [h.event] else s.commits
  {
    hide ApplyAll;
  }

  /** A failure report that lands after a commit reopens the event: the next outcome for it commits if it can. */
  lemma LateMarkReopens(s: Sys, p: nat, q: nat, replyLost: bool)
    requires At(s, p).Failing? && At(s, q).Holding? && At(s, q).event == At(s, p).event
    requires StatusOf(s, At(s, p).event) == Processed
    ensures var h, after := At(s, q), Mark(s, p);
            && ApplyOutcome(s, q, false, replyLost).commits == s.commits
            && At(after, q) == h
            && (ApplyAll(s.tables, h.policies, h.user, h.commands).Applied? ==>
                  ApplyOutcome(after, q, false, replyLost).commits == s.commits + [h.event])
  {
    hide ApplyAll;
    CommitsExactly(s, q, false, replyLost);
    CommitsExactly(Mark(s, p), q, false, replyLost);
  }

  lemma ApplySingle(t: Tables, ps: map<string, Policy>, user: string, c: Command)
    ensures ApplyAll(t, ps, user, [c]) == ApplyCommand(t, ps, user, c)
  {
    hide ApplyCommand;
    assert [c][..0] == [];
    assert ApplyAll(t, ps, user, []) == Applied(t, 0, 0);
  }

  /** An earn already recorded is skipped. */
  lemma EarnAgain(t: Tables, user: string, c: Command)
    requires c.kind.AddCurrency? && Recorded(t.entries, EntryOf(user, c))
    ensures ApplyAll(t, map[], user, [c]) == Applied(t, 0, 1)
  {
    ApplySingle(t, map[], user, c);
  }

  /** An earn into empty tables is their one row. */
  lemma EarnFirst(user: string, c: Command)
    requires c.kind.AddCurrency? && c.amount >= 0
    ensures var r := ApplyAll(NO_ROWS, map[], user, [c]); r.Applied? && r.tables.entries == [EntryOf(user, c)]
  {
    ApplySingle(NO_ROWS, map[], user, c);
    var e := EntryOf(user, c);
    assert [] + [e] == [e] && [e][..0] == [];
    assert Balance([e], user, e.currency) == e.amount;
    assert !Recorded([], e);
  }

  /** The outcome commits, and the reply is lost. */
  lemma LostReply(event: string, user: string, c: Command)
    requires c.kind.AddCurrency? && c.amount >= 0
    ensures var s := Next(Next(Start(NO_ROWS), Evaluate(0, event, user, map[], [c])), Apply(0, false, true));
            && At(s, 0) == Failing(event) && StatusOf(s, event) == Processed
            && s.tables.entries == [EntryOf(user, c)] && s.commits == [event] && s.lateMarks == []
  {
    hide ApplyAll, EntryOf;
    EarnFirst(user, c);
    assert [] + [event] == [event];
  }

  /** The failure report lands late, and the retried outcome commits again without money. */
  lemma LateRetry(s: Sys, event: string, user: string, c: Command)
    requires c.kind.AddCurrency? && Recorded(s.tables.entries, EntryOf(user, c))
    requires At(s, 0) == Failing(event) && StatusOf(s, event) == Processed
    ensures var evaluate := Evaluate(0, event, user, map[], [c]);
            var s' := Next(Next(Next(s, MarkFailed(0)), evaluate), Apply(0, false, false));
            && s'.tables == s.tables && s'.commits == s.commits + [event]
            && s'.lateMarks == s.lateMarks + [event]
  {
    hide ApplyAll, EntryOf, Recorded;
    EarnAgain(s.tables, user, c);
  }

  /** An event applied twice: a lost commit reply, a late failure report and a retry commit the same commands again. */
  lemma LateMarkReapplies(event: string, user: string, c: Command) returns (steps: seq<Step>)
    requires c.kind.AddCurrency? && c.amount >= 0
    ensures var s := Run(Start(NO_ROWS), steps);
            && Count(s.commits, event) == 2 && Count(s.lateMarks, event) == 1
            && s.tables.entries == [EntryOf(user, c)]
  {
    hide Run, Next, EntryOf;
    var s0, evaluate := Start(NO_ROWS), Evaluate(0, event, user, map[], [c]);
    RunNone(s0);
    RunOne(s0, [], evaluate);
    RunOne(s0, [] + [evaluate], Apply(0, false, true));
    LostReply(event, user, c);
    var s2 := Run(s0, [] + [evaluate] + [Apply(0, false, true)]);
    assert EntryOf(user, c) in s2.tables.entries;
    LateRetry(s2, event, user, c);
    steps := [] + [evaluate] + [Apply(0, false, true)] + [MarkFailed(0)];
    RunOne(s0, [] + [evaluate] + [Apply(0, false, true)], MarkFailed(0));
    RunOne(s0, steps, evaluate);
    RunOne(s0, steps + [evaluate], Apply(0, false, false));
    steps := steps + [evaluate] + [Apply(0, false, false)];
    CountOne([], event, event);
    CountOne([event], event, event);
    assert [] + [event] == [event];
  }

  lemma RunNone(s: Sys)
    ensures Run(s, []) == s
  {
  }
}
