/** The batching client: a queue, at most one batch in flight, and the promises made to its callers. */
module EventClient {
  import opened Common
  import opened EventGateway

  /** What a caller passes to `track`; what is missing is filled in. */
  datatype Input = Input(
    eventType: string, actor: Option<string>, subject: string, occurredAt: Option<string>, key: Option<string>,
    payload: Option<string>)

  function Given(o: Option<string>, fallback: string): string { if o.Some? then o.value else fallback }

  /** The event as it is queued: the client's user, clock and random key stand in for what is missing. */
  function Fill(user: string, now: string, randomKey: string, input: Input): Event {
    Event("", input.eventType, 0, "", "", Given(input.actor, user), input.subject, "",
          Given(input.occurredAt, now), "", "",
          Given(input.key, randomKey), input.payload)
  }

  /** The key a client chose or drew is the key the event is stored under, in every delivery of it. */
  lemma ClientKeyIsStored(
      h: Host, user: string, now: string, randomKey: string, input: Input, project: string, environment: string)
    requires Given(input.key, randomKey) != ""
    ensures StoredKey(h, Scoped(project, environment, Fill(user, now, randomKey, input))) == Given(input.key, randomKey)
  {
  }

  /** A row that holds the filled event holds what was passed; the client's user and clock stand in for the rest. */
  lemma FillCarries(user: string, now: string, randomKey: string, input: Input, row: Event, p: string, env: string)
    requires Carries(row, Scoped(p, env, Fill(user, now, randomKey, input)))
    ensures row.project == p && row.environment == env && row.eventType == input.eventType
    ensures row.actor == (if input.actor.None? then user else input.actor.value) && row.subject == input.subject
    ensures row.payload == (if input.payload.None? then Some("{}") else input.payload)
    ensures row.version == 1 && row.source == "server"
    ensures input.occurredAt.None? && now != "" ==> row.occurredAt == now
    ensures input.occurredAt.Some? && input.occurredAt.value != "" ==> row.occurredAt == input.occurredAt.value
    ensures input.key.None? && randomKey != "" ==> row.key == randomKey
    ensures input.key.Some? && input.key.value != "" ==> row.key == input.key.value
  {
  }

  /** Ids, the time of receipt and the correlation are the server's. */
  lemma FillLeavesIds(
      user: string, now: string, randomKey: string, input: Input, row: Event, d: Draw, p: string, env: string)
    requires Holds(row, d, Scoped(p, env, Fill(user, now, randomKey, input)))
    ensures row.eventId == d.eventId && row.receivedAt == d.now && row.correlation == d.correlation
  {
  }

  /** A tracked event and the number of the promise its caller holds. */
  datatype Pending = Pending(ticket: nat, event: Event)

  datatype Client = Client(
    maxBatch: nat, queue: seq<Pending>, inFlight: seq<Pending>, flushing: bool,
    resolved: map<nat, IngestResult>, rejected: set<nat>)

  const SPLICE: nat := 500

  function BatchSize(n: nat): nat { if n < SPLICE then n else SPLICE }

  /** The synchronous half of `flush`: take a batch off the queue and send it, unless one is out already. */
  function BeginFlush(c: Client): Client {
    if c.flushing || c.queue == [] then c
    else
      var n := BatchSize(|c.queue|);
      c.(flushing := true, inFlight := c.queue[..n], queue := c.queue[n..])
  }

  function Track(c: Client, p: Pending): Client {
    var c' := c.(queue := c.queue + [p]);
    if |c'.queue| >= c.maxBatch then BeginFlush(c') else c'
  }

  predicate Permanent(status: int) { 400 <= status < 500 && status != 429 }

  /** The result the client hands to the `i`-th event of a batch; a missing one reads as inserted. */
  function ResultAt(results: seq<IngestResult>, i: nat): IngestResult {
    if i < |results| then results[i] else IngestResult("", Inserted)
  }

  function Resolutions(batch: seq<Pending>, results: seq<IngestResult>): map<nat, IngestResult> {
    if batch == [] then map[]
    else
      var n := |batch| - 1;
      Resolutions(batch[..n], results)[batch[n].ticket := ResultAt(results, n)]
  }

  function Tickets(ps: seq<Pending>): set<nat> { set p | p in ps :: p.ticket }

  /** The asynchronous half of `flush`: settle the batch by its reply. */
  function EndFlush(c: Client, reply: Reply): Client {
    var c' := c.(inFlight := [], flushing := false);
    if !c.flushing then c
    else
      match reply
      case Success(results, _, _) => c'.(resolved := c.resolved + Resolutions(c.inFlight, results))
      case HttpError(status) =>
        if Permanent(status) then c'.(rejected := c.rejected + Tickets(c.inFlight))
        else c'.(queue := c.inFlight + c.queue)
      case NetworkError => c'.(queue := c.inFlight + c.queue)
  }

  class UEPClient {
    const maxBatch: nat
    const userId: string
    var queue: seq<Pending>
    var inFlight: seq<Pending>
    var flushing: bool
    var resolved: map<nat, IngestResult>
    var rejected: set<nat>

    constructor (maxBatch: nat, userId: string)
      ensures View() == Client(maxBatch, [], [], false, map[], {}) && this.userId == userId
    {
      this.maxBatch, this.userId := maxBatch, userId;
      queue, inFlight, flushing, resolved, rejected := [], [], false, map[], {};
    }

    ghost function View(): Client
      reads this
    {
      Client(maxBatch, queue, inFlight, flushing, resolved, rejected)
    }

    method TrackEvent(ticket: nat, input: Input, now: string, randomKey: string)
      modifies this
      ensures View() == Track(old(View()), Pending(ticket, Fill(userId, now, randomKey, input)))
    {
      var actor := if input.actor.Some? then input.actor.value else userId;
      var occurredAt := if input.occurredAt.Some? then input.occurredAt.value else now;
      var key := if input.key.Some? then input.key.value else randomKey;
      var full := Event(
        "", input.eventType, 0, "", "", actor, input.subject, "", occurredAt, "", "", key, input.payload);
      queue := queue + [Pending(ticket, full)];
      if |queue| >= maxBatch { Flush(); }
    }

    method Flush()
      modifies this
      ensures View() == BeginFlush(old(View()))
    {
      if flushing || queue == [] { return; }
      flushing := true;
      var n := if |queue| < SPLICE then |queue| else SPLICE;
      inFlight, queue := queue[..n], queue[n..];
    }

    method OnReply(reply: Reply)
      requires flushing
      modifies this
      ensures View() == EndFlush(old(View()), reply)
    {
      if reply.Success? {
        ghost var settled := map[];
        for i := 0 to |inFlight|
          invariant queue == old(queue) && inFlight == old(inFlight) && flushing && rejected == old(rejected)
          invariant settled == Resolutions(inFlight[..i], reply.results) && resolved == old(resolved) + settled
        {
          assert inFlight[..i + 1][..i] == inFlight[..i];
          resolved := resolved[inFlight[i].ticket := ResultAt(reply.results, i)];
          settled := settled[inFlight[i].ticket := ResultAt(reply.results, i)];
        }
        assert inFlight[..|inFlight|] == inFlight;
      } else if reply.HttpError? && Permanent(reply.status) {
        rejected := rejected + set p | p in inFlight :: p.ticket;
      } else {
        queue := inFlight + queue;
      }
      inFlight, flushing := [], false;
    }
  }

  // ---- What the client keeps -------------------------------------------------------------

  /** Events not yet settled, the batch in flight first. */
  function Unsettled(c: Client): seq<Pending> { c.inFlight + c.queue }

  ghost predicate Increasing(ps: seq<Pending>) {
    forall i, j :: 0 <= i < j < |ps| ==> ps[i].ticket < ps[j].ticket
  }

  /** Each of `n` promises issued is waiting, resolved or rejected, never two of these; waiting is in track order. */
  ghost predicate ClientInv(c: Client, n: nat) {
    && Increasing(Unsettled(c))
    && c.resolved.Keys !! c.rejected
    && (forall p :: p in Unsettled(c) ==> p.ticket !in c.resolved && p.ticket !in c.rejected)
    && (forall t :: 0 <= t < n <==> t in Tickets(Unsettled(c)) || t in c.resolved || t in c.rejected)
    && (c.flushing <==> c.inFlight != []) && |c.inFlight| <= SPLICE
  }

  /** A flush takes all that waits, up to five hundred, from the front; nothing while a batch is out. */
  lemma FlushTakes(c: Client)
    ensures var c' := BeginFlush(c);
            if c.flushing || c.queue == [] then c' == c
            else
              && c'.flushing && |c'.inFlight| == (if |c.queue| <= 500 then |c.queue| else 500)
              && c'.inFlight + c'.queue == c.queue
              && c'.resolved == c.resolved && c'.rejected == c.rejected && c'.maxBatch == c.maxBatch
  {
  }

  /** Tracking starts a flush exactly when that fills a batch and none is out. */
  lemma TrackFlushes(c: Client, p: Pending)
    ensures Track(c, p) == if |c.queue| + 1 < c.maxBatch || c.flushing then c.(queue := c.queue + [p])
                           else BeginFlush(c.(queue := c.queue + [p]))
  {
  }

  /** The reply is an error for good: a status of 400 to 499 other than 429. */
  predicate Final(reply: Reply) {
    reply.HttpError? && 400 <= reply.status <= 499 && reply.status != 429
  }

  /**
   * What becomes of a batch: a success resolves each of its promises and no other, an error for good rejects them
   * all, and after any other error they wait again in front of the queue.
   */
  lemma ReplySettles(c: Client, reply: Reply)
    requires c.flushing
    ensures var c' := EndFlush(c, reply);
            && !c'.flushing && c'.inFlight == [] && c'.maxBatch == c.maxBatch
            && (if reply.Success? || Final(reply) then c'.queue == c.queue else c'.queue == c.inFlight + c.queue)
            && (forall t :: t in c'.rejected <==>
                  t in c.rejected || (Final(reply) && exists p :: p in c.inFlight && p.ticket == t))
            && (forall t :: t in c'.resolved <==>
                  t in c.resolved || (reply.Success? && exists p :: p in c.inFlight && p.ticket == t))
  {
    hide Resolutions;
    if reply.Success? { ResolutionKeys(c.inFlight, reply.results); }
  }

  lemma BeginFlushKeeps(c: Client, n: nat)
    requires ClientInv(c, n)
    ensures ClientInv(BeginFlush(c), n) && Unsettled(BeginFlush(c)) == Unsettled(c)
  {
    hide Tickets, Increasing;
    if !c.flushing && c.queue != [] {
      var k := BatchSize(|c.queue|);
      assert c.queue[..k] + c.queue[k..] == c.queue == Unsettled(c);
    }
  }

  lemma AppendKeeps(c: Client, n: nat, e: Event)
    requires ClientInv(c, n)
    ensures var c' := c.(queue := c.queue + [Pending(n, e)]);
            ClientInv(c', n + 1) && Unsettled(c') == Unsettled(c) + [Pending(n, e)]
  {
    var p := Pending(n, e);
    var c' := c.(queue := c.queue + [p]);
    assert Unsettled(c') == Unsettled(c) + [p];
    assert Tickets(Unsettled(c')) == Tickets(Unsettled(c)) + {n};
    forall q | q in Unsettled(c) ensures q.ticket < n { assert q.ticket in Tickets(Unsettled(c)); }
  }

  lemma TrackKeeps(c: Client, n: nat, e: Event)
    requires ClientInv(c, n)
    ensures ClientInv(Track(c, Pending(n, e)), n + 1)
    ensures Unsettled(Track(c, Pending(n, e))) == Unsettled(c) + [Pending(n, e)]
  {
    hide ClientInv, BeginFlush, Unsettled;
    AppendKeeps(c, n, e);
    BeginFlushKeeps(c.(queue := c.queue + [Pending(n, e)]), n + 1);
  }

  lemma TicketsSplit(a: seq<Pending>, b: seq<Pending>)
    ensures Tickets(a + b) == Tickets(a) + Tickets(b)
  {
  }

  lemma {:induction false} ResolutionKeys(batch: seq<Pending>, results: seq<IngestResult>)
    ensures Resolutions(batch, results).Keys == Tickets(batch)
  {
    if batch == [] {
    } else {
      var n := |batch| - 1;
      ResolutionKeys(batch[..n], results);
      assert batch == batch[..n] + [batch[n]];
      TicketsSplit(batch[..n], [batch[n]]);
    }
  }

  /** The event at position `i` of the batch gets the result at position `i`. */
  lemma {:induction false} ResolutionAt(batch: seq<Pending>, results: seq<IngestResult>, i: nat)
    requires Increasing(batch) && i < |batch|
    ensures batch[i].ticket in Resolutions(batch, results)
    ensures Resolutions(batch, results)[batch[i].ticket]
            == if i < |results| then results[i] else IngestResult("", Inserted)
  {
    var n := |batch| - 1;
    if i >= n {
    } else {
      assert batch[i].ticket < batch[n].ticket;
      ResolutionAt(batch[..n], results, i);
    }
  }

  lemma EndFlushKeeps(c: Client, n: nat, reply: Reply)
    requires ClientInv(c, n) && c.flushing
    ensures ClientInv(EndFlush(c, reply), n) && !EndFlush(c, reply).flushing
    ensures forall p :: p in Unsettled(EndFlush(c, reply)) ==> p in Unsettled(c)
  {
    hide Tickets, Increasing;
    var c' := EndFlush(c, reply);
    InFlightUnsettled(c, n);
    hide ClientInv;
    if reply.Success? {
      ResolutionKeys(c.inFlight, reply.results);
      SettleKeeps(c, n, c');
    } else if reply.HttpError? && Permanent(reply.status) {
      SettleKeeps(c, n, c');
    } else {
      RequeueKeeps(c, n, c');
    }
  }

  lemma RequeueKeeps(c: Client, n: nat, c': Client)
    requires ClientInv(c, n)
    requires c' == c.(inFlight := [], flushing := false, queue := c.inFlight + c.queue)
    ensures ClientInv(c', n) && Unsettled(c') == Unsettled(c)
  {
    assert Unsettled(c') == Unsettled(c);
  }

  lemma InFlightUnsettled(c: Client, n: nat)
    requires ClientInv(c, n)
    ensures Tickets(c.inFlight) !! c.resolved.Keys && Tickets(c.inFlight) !! c.rejected
    ensures c.resolved.Keys !! c.rejected
  {
    assert forall p :: p in c.inFlight ==> p in Unsettled(c);
  }

  /** Settling moves exactly the batch's tickets into the settled ones. */
  lemma SettleKeeps(c: Client, n: nat, c': Client)
    requires ClientInv(c, n)
    requires c'.inFlight == [] && !c'.flushing && c'.queue == c.queue
    requires c'.resolved.Keys + c'.rejected == c.resolved.Keys + c.rejected + Tickets(c.inFlight)
    requires c'.resolved.Keys !! c'.rejected
    ensures ClientInv(c', n)
  {
    TicketsSplit(c.inFlight, c.queue);
    SplitIncreasing(c);
    hide Increasing;
    assert Unsettled(c') == c.queue;
    forall t ensures t in c'.resolved || t in c'.rejected <==>
                     t in c.resolved || t in c.rejected || t in Tickets(c.inFlight) {
      assert t in c'.resolved.Keys + c'.rejected <==> t in c.resolved.Keys + c.rejected + Tickets(c.inFlight);
    }
  }

  /** The two parts of the waiting list are in order and share no ticket. */
  lemma SplitIncreasing(c: Client)
    requires Increasing(Unsettled(c))
    ensures Increasing(c.inFlight) && Increasing(c.queue) && Tickets(c.inFlight) !! Tickets(c.queue)
  {
    var all, k := Unsettled(c), |c.inFlight|;
    assert forall i :: 0 <= i < |c.queue| ==> c.queue[i] == all[k + i];
    assert forall i :: 0 <= i < k ==> c.inFlight[i] == all[i];
    forall i, j | 0 <= i < k && 0 <= j < |c.queue| ensures c.inFlight[i].ticket < c.queue[j].ticket {
      assert all[i].ticket < all[k + j].ticket;
    }
  }
}
