/** One client, a lossy network and the gateway, over every interleaving of their steps. */
module IngestionRun {
  import opened EventGateway
  import opened EventClient

  /** Everything ever sent stays deliverable: a request may reach the server late, or more than once. */
  datatype Sys = Sys(
    client: Client, log: seq<Event>, requests: seq<seq<Event>>, replies: seq<(nat, Reply)>, rows: seq<Event>)

  datatype World = World(host: Host, project: string, environment: string, user: string)

  datatype Step =
    | TrackStep(input: Input, now: string, randomKey: string)
    | FlushStep
    | DeliverStep(request: nat, draws: seq<Draw>)
    | ReplyStep(reply: nat)
    | FailStep(status: int)
    | DropStep

  function Events(ps: seq<Pending>): seq<Event> {
    seq(|ps|, i requires 0 <= i < |ps| => ps[i].event)
  }

  /** A client move, and the request it sends when it starts a flush. */
  function Move(s: Sys, c: Client): Sys {
    s.(client := c,
       requests := if !s.client.flushing && c.flushing then s.requests + [Events(c.inFlight)] else s.requests)
  }

  /** A reply reaches the client only for the request it is waiting on; errors may strike it at any time. */
  ghost predicate Enabled(w: World, s: Sys, step: Step) {
    match step
    case TrackStep(_, _, _) => true
    case FlushStep => true
    case DeliverStep(k, ds) => k < |s.requests| && |ds| == |s.requests[k]| && FreshDraws(w.host, s.rows, ds)
    case ReplyStep(i) => s.client.flushing && i < |s.replies| && s.replies[i].0 + 1 == |s.requests|
    case FailStep(_) => s.client.flushing
    case DropStep => s.client.flushing
  }

  ghost function Next(w: World, s: Sys, step: Step): Sys {
    if !Enabled(w, s, step) then s
    else
      match step
      case TrackStep(input, now, randomKey) =>
        var e := Fill(w.user, now, randomKey, input);
        Move(s.(log := s.log + [e]), Track(s.client, Pending(|s.log|, e)))
      case FlushStep => Move(s, BeginFlush(s.client))
      case DeliverStep(k, ds) =>
        var (rows, reply) := Handle(w.host, s.rows, ds, ScopedAll(w.project, w.environment, s.requests[k]));
        s.(rows := rows, replies := s.replies + [(k, reply)])
      case ReplyStep(i) => s.(client := EndFlush(s.client, s.replies[i].1))
      case FailStep(status) => s.(client := EndFlush(s.client, HttpError(status)))
      case DropStep => s.(client := EndFlush(s.client, NetworkError))
  }

  ghost function Run(w: World, s: Sys, steps: seq<Step>): Sys {
    if steps == [] then s else Next(w, Run(w, s, steps[..|steps| - 1]), steps[|steps| - 1])
  }

  function Start(maxBatch: nat, rows: seq<Event>): Sys {
    Sys(Client(maxBatch, [], [], false, map[], {}), [], [], [], rows)
  }

  // ---- The invariant ---------------------------------------------------------------------

  /** A row stands for the event as this project environment stores it. */
  ghost predicate Stores(w: World, row: Event, e: Event) {
    StandsFor(w.host, row, Scoped(w.project, w.environment, e))
  }

  /** A row stored for the event, holding what was tracked. */
  ghost predicate Keeps(w: World, row: Event, e: Event) {
    Stores(w, row, e) && Carries(row, Scoped(w.project, w.environment, e))
  }

  /** The result is about this event: not rejected, and naming the row that stands for it. */
  ghost predicate Names(w: World, rows: seq<Event>, e: Event, r: IngestResult) {
    !r.status.Rejected? && exists row :: row in rows && Stores(w, row, e) && row.eventId == r.eventId
  }

  ghost predicate WaitingOk(s: Sys) {
    && ClientInv(s.client, |s.log|)
    && (forall p :: p in Unsettled(s.client) ==> p.ticket < |s.log| && p.event == s.log[p.ticket])
  }

  ghost predicate RequestsOk(s: Sys) {
    && (forall e :: e in s.log ==> e.eventId == "")
    && (forall k :: 0 <= k < |s.requests| ==> 0 < |s.requests[k]| <= MAX_EVENTS)
    && (forall k, e :: 0 <= k < |s.requests| && e in s.requests[k] ==> e in s.log)
    && (s.client.flushing ==> s.requests != [] && s.requests[|s.requests| - 1] == Events(s.client.inFlight))
  }

  ghost predicate RowsOk(w: World, rows0: seq<Event>, s: Sys) {
    && UniqueRows(s.rows) && rows0 <= s.rows
    && (forall row :: row in s.rows && row !in rows0 ==> exists e :: e in s.log && Keeps(w, row, e))
  }

  ghost predicate ReplyOk(w: World, rows: seq<Event>, request: seq<Event>, reply: Reply) {
    reply.Success? ==>
      |reply.results| == |request| && forall i :: 0 <= i < |request| ==> Names(w, rows, request[i], reply.results[i])
  }

  ghost predicate RepliesOk(w: World, s: Sys) {
    forall i :: 0 <= i < |s.replies| ==>
      s.replies[i].0 < |s.requests| && ReplyOk(w, s.rows, s.requests[s.replies[i].0], s.replies[i].1)
  }

  ghost predicate ResolvedOk(w: World, s: Sys) {
    forall t :: t in s.client.resolved ==> t < |s.log| && Names(w, s.rows, s.log[t], s.client.resolved[t])
  }

  ghost predicate Inv(w: World, rows0: seq<Event>, s: Sys) {
    WaitingOk(s) && RequestsOk(s) && RowsOk(w, rows0, s) && RepliesOk(w, s) && ResolvedOk(w, s)
  }

  /** Steps of the client that settle nothing: track and flush. */
  lemma MoveKeeps(w: World, rows0: seq<Event>, s: Sys, added: seq<Event>, c: Client)
    requires Inv(w, rows0, s) && forall e :: e in added ==> e.eventId == ""
    requires WaitingOk(s.(log := s.log + added, client := c))
    requires c.resolved == s.client.resolved
    requires c.flushing && s.client.flushing ==> c.inFlight == s.client.inFlight
    ensures Inv(w, rows0, Move(s.(log := s.log + added), c))
  {
    var s' := Move(s.(log := s.log + added), c);
    hide Names, Keeps, ClientInv;
    if !s.client.flushing && c.flushing {
      forall e | e in Events(c.inFlight) ensures e in s'.log {
        var i :| 0 <= i < |c.inFlight| && Events(c.inFlight)[i] == e;
        assert c.inFlight[i] in Unsettled(c);
      }
    }
    assert |c.inFlight| <= SPLICE && (c.flushing ==> c.inFlight != []) by { WaitingShape(s'); }
    assert RepliesOk(w, s');
    assert ResolvedOk(w, s');
  }

  lemma WaitingShape(s: Sys)
    requires WaitingOk(s)
    ensures |s.client.inFlight| <= SPLICE && (s.client.flushing <==> s.client.inFlight != [])
  {
  }

  lemma TrackStepKeeps(w: World, rows0: seq<Event>, s: Sys, input: Input, now: string, randomKey: string)
    requires Inv(w, rows0, s)
    ensures Inv(w, rows0, Next(w, s, TrackStep(input, now, randomKey)))
  {
    var e := Fill(w.user, now, randomKey, input);
    hide ClientInv, RequestsOk, RowsOk, RepliesOk, ResolvedOk;
    var c := Track(s.client, Pending(|s.log|, e));
    TrackKeeps(s.client, |s.log|, e);
    MoveKeeps(w, rows0, s, [e], c);
  }

  lemma FlushStepKeeps(w: World, rows0: seq<Event>, s: Sys)
    requires Inv(w, rows0, s)
    ensures Inv(w, rows0, Next(w, s, FlushStep))
  {
    hide ClientInv, RequestsOk, RowsOk, RepliesOk, ResolvedOk;
    BeginFlushKeeps(s.client, |s.log|);
    assert s.log + [] == s.log;
    MoveKeeps(w, rows0, s, [], BeginFlush(s.client));
  }

  /** A reply to the request in flight, or an error, settles or requeues that batch. */
  lemma EndFlushStepKeeps(w: World, rows0: seq<Event>, s: Sys, reply: Reply)
    requires Inv(w, rows0, s) && s.client.flushing
    requires ReplyOk(w, s.rows, Events(s.client.inFlight), reply)
    ensures Inv(w, rows0, s.(client := EndFlush(s.client, reply)))
  {
    hide Names, ClientInv, ReplyOk, UniqueRows, Keeps;
    EndFlushKeeps(s.client, |s.log|, reply);
    if reply.Success? { BatchResolved(w, s, reply); }
  }

  /** A batch's own results resolve its own events. */
  lemma BatchResolved(w: World, s: Sys, reply: Reply)
    requires WaitingOk(s) && reply.Success? && ReplyOk(w, s.rows, Events(s.client.inFlight), reply)
    ensures var m := Resolutions(s.client.inFlight, reply.results);
            forall t :: t in m ==> t < |s.log| && Names(w, s.rows, s.log[t], m[t])
  {
    hide Names, ClientInv;
    var c := s.client;
    InFlightInOrder(c, |s.log|);
    ResolutionKeys(c.inFlight, reply.results);
    forall t | t in Resolutions(c.inFlight, reply.results)
      ensures t < |s.log| && Names(w, s.rows, s.log[t], Resolutions(c.inFlight, reply.results)[t])
    {
      var i :| 0 <= i < |c.inFlight| && c.inFlight[i].ticket == t;
      ResolutionAt(c.inFlight, reply.results, i);
      assert c.inFlight[i] in Unsettled(c) && Events(c.inFlight)[i] == s.log[t];
    }
  }

  lemma InFlightInOrder(c: Client, n: nat)
    requires ClientInv(c, n)
    ensures Increasing(c.inFlight)
  {
    SplitIncreasing(c);
  }

  lemma DeliverStepKeeps(w: World, rows0: seq<Event>, s: Sys, k: nat, ds: seq<Draw>)
    requires SoundHost(w.host) && Inv(w, rows0, s) && Enabled(w, s, DeliverStep(k, ds))
    ensures Inv(w, rows0, Next(w, s, DeliverStep(k, ds)))
  {
    hide Handle, Names, ClientInv, UniqueRows, FreshDraws, Keeps;
    var es := ScopedAll(w.project, w.environment, s.requests[k]);
    var (rows, reply) := Handle(w.host, s.rows, ds, es);
    FreshAreSound(w.host, s.rows, ds);
    HandleCorrect(w.host, s.rows, ds, es);
    HandledRows(w, s, k, ds);
    NamesGrow(w, s.rows, rows);
    var s' := Next(w, s, DeliverStep(k, ds));
    assert s' == s.(rows := rows, replies := s.replies + [(k, reply)]);
    forall i | 0 <= i < |s'.replies|
      ensures ReplyOk(w, rows, s'.requests[s'.replies[i].0], s'.replies[i].1) {
      if i < |s.replies| { assert ReplyOk(w, s.rows, s.requests[s.replies[i].0], s.replies[i].1); }
    }
  }

  lemma NamesGrow(w: World, rows: seq<Event>, rows': seq<Event>)
    requires rows <= rows'
    ensures forall e, r :: Names(w, rows, e, r) ==> Names(w, rows', e, r)
  {
    forall e, r | Names(w, rows, e, r) ensures Names(w, rows', e, r) {
      var row :| row in rows && Stores(w, row, e) && row.eventId == r.eventId;
      assert row in rows';
    }
  }

  /** What the gateway's guarantee means for a request this client sent. */
  lemma HandledRows(w: World, s: Sys, k: nat, ds: seq<Draw>)
    requires SoundHost(w.host) && RequestsOk(s) && UniqueRows(s.rows)
    requires Enabled(w, s, DeliverStep(k, ds))
    ensures var (rows, reply) := Handle(w.host, s.rows, ds, ScopedAll(w.project, w.environment, s.requests[k]));
            && s.rows <= rows && UniqueRows(rows) && ReplyOk(w, rows, s.requests[k], reply)
            && (forall row :: row in rows && row !in s.rows ==> exists e :: e in s.log && Keeps(w, row, e))
  {
    hide Handle, UniqueRows, FreshDraws, StandsFor, Carries, NormalizedAll;
    var request := s.requests[k];
    var es := ScopedAll(w.project, w.environment, request);
    var (rows, reply) := Handle(w.host, s.rows, ds, es);
    forall e | e in es ensures e.eventId == "" {
      var i :| 0 <= i < |es| && es[i] == e;
      assert request[i] in request;
    }
    HandleNamesAll(w.host, s.rows, ds, es);
    if reply.Success? {
      forall i | 0 <= i < |request| ensures Names(w, rows, request[i], reply.results[i]) {
        assert NamesRow(w.host, rows, es[i], reply.results[i]);
        NamesScoped(w, rows, request[i], reply.results[i]);
      }
    }
    forall row | row in rows && row !in s.rows ensures exists e :: e in s.log && Keeps(w, row, e) {
      assert FromBatch(w.host, row, ds, es);
      var i :| 0 <= i < |es| && StandsFor(w.host, row, es[i]) && Holds(row, ds[i], es[i]);
      assert request[i] in s.log && Keeps(w, row, request[i]);
    }
  }

  lemma NamesScoped(w: World, rows: seq<Event>, e: Event, r: IngestResult)
    requires !r.status.Rejected? && NamesRow(w.host, rows, Scoped(w.project, w.environment, e), r)
    ensures Names(w, rows, e, r)
  {
    hide StandsFor;
    var row :| row in rows && StandsFor(w.host, row, Scoped(w.project, w.environment, e)) && row.eventId == r.eventId;
    assert Stores(w, row, e);
  }

  lemma ReplyStepKeeps(w: World, rows0: seq<Event>, s: Sys, i: nat)
    requires Inv(w, rows0, s) && Enabled(w, s, ReplyStep(i))
    ensures Inv(w, rows0, Next(w, s, ReplyStep(i)))
  {
    hide WaitingOk, RowsOk, ResolvedOk, ReplyOk, EndFlush;
    EndFlushStepKeeps(w, rows0, s, s.replies[i].1);
  }

  lemma NextKeeps(w: World, rows0: seq<Event>, s: Sys, step: Step)
    requires SoundHost(w.host) && Inv(w, rows0, s)
    ensures Inv(w, rows0, Next(w, s, step))
  {
    hide Inv, EndFlush, Track, BeginFlush, Handle, SoundHost;
    if Enabled(w, s, step) {
      match step {
        case TrackStep(input, now, randomKey) => TrackStepKeeps(w, rows0, s, input, now, randomKey);
        case FlushStep => FlushStepKeeps(w, rows0, s);
        case DeliverStep(k, ds) => DeliverStepKeeps(w, rows0, s, k, ds);
        case ReplyStep(i) => ReplyStepKeeps(w, rows0, s, i);
        case FailStep(status) => EndFlushStepKeeps(w, rows0, s, HttpError(status));
        case DropStep => EndFlushStepKeeps(w, rows0, s, NetworkError);
      }
    }
  }

  lemma StartKeeps(w: World, maxBatch: nat, rows0: seq<Event>)
    requires UniqueRows(rows0)
    ensures Inv(w, rows0, Start(maxBatch, rows0))
  {
    hide UniqueRows;
  }

  lemma {:induction false} RunKeeps(w: World, maxBatch: nat, rows0: seq<Event>, steps: seq<Step>)
    requires SoundHost(w.host) && UniqueRows(rows0)
    ensures Inv(w, rows0, Run(w, Start(maxBatch, rows0), steps))
  {
    hide Inv, Next, UniqueRows;
    if steps == [] {
      StartKeeps(w, maxBatch, rows0);
    } else {
      RunKeeps(w, maxBatch, rows0, steps[..|steps| - 1]);
      NextKeeps(w, rows0, Run(w, Start(maxBatch, rows0), steps[..|steps| - 1]), steps[|steps| - 1]);
    }
  }

  // ---- What a caller may rely on ---------------------------------------------------------

  /** The four places an issued promise can be. */
  ghost predicate Queued(s: Sys, t: nat) { t in Tickets(s.client.queue) }
  ghost predicate Flying(s: Sys, t: nat) { t in Tickets(s.client.inFlight) }
  ghost predicate Resolved(s: Sys, t: nat) { t in s.client.resolved }
  ghost predicate Refused(s: Sys, t: nat) { t in s.client.rejected }

  /** No other tracked event, and no row from before, has the key under which this event is stored. */
  ghost predicate KeyItsOwn(w: World, rows0: seq<Event>, log: seq<Event>, t: nat)
    requires t < |log|
  {
    && (forall row :: row in rows0 ==> !Stores(w, row, log[t]))
    && (forall t' :: 0 <= t' < |log| && t' != t ==>
          StoredKey(w.host, Scoped(w.project, w.environment, log[t']))
          != StoredKey(w.host, Scoped(w.project, w.environment, log[t])))
  }

  /** The row was there before, or holds what some event tracked under its key said. */
  ghost predicate Accounted(w: World, rows0: seq<Event>, log: seq<Event>, row: Event) {
    row in rows0 || exists e :: e in log && Keeps(w, row, e)
  }

  /**
   * Exactly one row stands for the event, and the result names it. The row holds what was tracked under its key,
   * so what this event said when the key is its own.
   */
  ghost predicate OneRow(w: World, rows0: seq<Event>, rows: seq<Event>, log: seq<Event>, t: nat, r: IngestResult)
    requires t < |log|
  {
    exists row ::
      && row in rows && Stores(w, row, log[t]) && row.eventId == r.eventId
      && (forall other :: other in rows && Stores(w, other, log[t]) ==> other == row)
      && Accounted(w, rows0, log, row) && (KeyItsOwn(w, rows0, log, t) ==> Keeps(w, row, log[t]))
  }

  /**
   * After any run: each tracked event is in exactly one place, waiting events are in track order, no request
   * exceeds the server's cap, rows are unique per key, and a resolved event has exactly one row, the one its
   * own result names, holding what was tracked.
   */
  lemma EffectivelyOnce(w: World, maxBatch: nat, rows0: seq<Event>, steps: seq<Step>)
    requires SoundHost(w.host) && UniqueRows(rows0)
    ensures var s := Run(w, Start(maxBatch, rows0), steps);
            forall t :: 0 <= t < |s.log| ==>
              && (Queued(s, t) || Flying(s, t) || Resolved(s, t) || Refused(s, t))
              && !(Queued(s, t) && Flying(s, t)) && !(Resolved(s, t) && Refused(s, t))
              && (Queued(s, t) || Flying(s, t) ==> !Resolved(s, t) && !Refused(s, t))
    ensures var s := Run(w, Start(maxBatch, rows0), steps);
            && Increasing(s.client.inFlight + s.client.queue)
            && (forall k :: 0 <= k < |s.requests| ==> 0 < |s.requests[k]| <= MAX_EVENTS)
            && rows0 <= s.rows && UniqueRows(s.rows)
    ensures var s := Run(w, Start(maxBatch, rows0), steps);
            forall t :: t in s.client.resolved ==>
              t < |s.log| && OneRow(w, rows0, s.rows, s.log, t, s.client.resolved[t])
  {
    hide Run, UniqueRows, RequestsOk, RepliesOk;
    RunKeeps(w, maxBatch, rows0, steps);
    var s := Run(w, Start(maxBatch, rows0), steps);
    TicketsSplit(s.client.inFlight, s.client.queue);
    SplitIncreasing(s.client);
    RequestBounds(s);
    forall t | t in s.client.resolved
      ensures t < |s.log| && OneRow(w, rows0, s.rows, s.log, t, s.client.resolved[t])
    {
      var row :| row in s.rows && Stores(w, row, s.log[t]) && row.eventId == s.client.resolved[t].eventId;
      forall other | other in s.rows && Stores(w, other, s.log[t]) ensures other == row {
        OneRowPerKey(s.rows, row, other);
      }
      if row !in rows0 { OwnRowKeeps(w, rows0, s, t, row); }
    }
  }

  /** A row of the run under a key no other event shares holds its event. */
  lemma OwnRowKeeps(w: World, rows0: seq<Event>, s: Sys, t: nat, row: Event)
    requires RowsOk(w, rows0, s) && t < |s.log| && row in s.rows && row !in rows0 && Stores(w, row, s.log[t])
    ensures Accounted(w, rows0, s.log, row)
    ensures KeyItsOwn(w, rows0, s.log, t) ==> Keeps(w, row, s.log[t])
  {
    hide UniqueRows, StoredKey, Carries;
    var e :| e in s.log && Keeps(w, row, e);
    var t' :| 0 <= t' < |s.log| && s.log[t'] == e;
  }

  /** One event the gateway will not take loses its whole batch: nothing is stored and every promise is rejected. */
  lemma BadEventLosesBatch(w: World, rows: seq<Event>, c: Client, ds: seq<Draw>)
    requires c.flushing && 0 < |c.inFlight| <= 500 && |ds| == |c.inFlight|
    ensures var es := ScopedAll(w.project, w.environment, Events(c.inFlight));
            var (after, reply) := Handle(w.host, rows, ds, es);
            (exists i :: 0 <= i < |es| && Unacceptable(w.host, ds[i], es[i])) ==>
              && after == rows && EndFlush(c, reply).rejected == c.rejected + Tickets(c.inFlight)
              && EndFlush(c, reply).queue == c.queue && EndFlush(c, reply).resolved == c.resolved
  {
    hide Ingest, Unacceptable, Acceptable, Resolutions;
    HandleRefuses(w.host, rows, ds, ScopedAll(w.project, w.environment, Events(c.inFlight)));
  }

  lemma RequestBounds(s: Sys)
    requires RequestsOk(s)
    ensures forall k :: 0 <= k < |s.requests| ==> 0 < |s.requests[k]| <= MAX_EVENTS
  {
  }

  lemma RunOne(w: World, s: Sys, steps: seq<Step>, step: Step)
    ensures Run(w, s, steps + [step]) == Next(w, Run(w, s, steps), step)
  {
    assert (steps + [step])[..|steps|] == steps;
  }

  /**
   * After any run, an undisturbed exchange settles the batch that is out: once its request is delivered and that
   * reply comes back, each of its promises is resolved or rejected, and the client is free to send the next.
   */
  lemma UndisturbedSettles(w: World, maxBatch: nat, rows0: seq<Event>, steps: seq<Step>, ds: seq<Draw>)
    requires SoundHost(w.host) && UniqueRows(rows0)
    requires var s := Run(w, Start(maxBatch, rows0), steps);
             && s.client.flushing && |s.requests| > 0 && |ds| == |s.requests[|s.requests| - 1]|
             && FreshDraws(w.host, s.rows, ds)
    ensures var s := Run(w, Start(maxBatch, rows0), steps);
            var after := Run(w, Start(maxBatch, rows0),
                             steps + [DeliverStep(|s.requests| - 1, ds)] + [ReplyStep(|s.replies|)]);
            && !after.client.flushing && after.client.inFlight == [] && after.client.queue == s.client.queue
            && forall p :: p in s.client.inFlight ==>
                 p.ticket in after.client.resolved || p.ticket in after.client.rejected
  {
    hide Run, UniqueRows, FreshDraws, Handle, EndFlush, Inv, SoundHost;
    var s0 := Start(maxBatch, rows0);
    var s, k := Run(w, s0, steps), |Run(w, s0, steps).requests| - 1;
    var deliver := DeliverStep(k, ds);
    RunKeeps(w, maxBatch, rows0, steps);
    RunOne(w, s0, steps, deliver);
    RunOne(w, s0, steps + [deliver], ReplyStep(|s.replies|));
    var es := ScopedAll(w.project, w.environment, s.requests[k]);
    var reply := Handle(w.host, s.rows, ds, es).1;
    assert UniqueRows(s.rows) by { InvRows(w, rows0, s); }
    FreshAreSound(w.host, s.rows, ds);
    HandleCorrect(w.host, s.rows, ds, es);
    HandleRefuses(w.host, s.rows, ds, es);
    ReplySettles(s.client, reply);
  }

  lemma InvRows(w: World, rows0: seq<Event>, s: Sys)
    requires Inv(w, rows0, s)
    ensures UniqueRows(s.rows)
  {
    hide UniqueRows;
  }
}
