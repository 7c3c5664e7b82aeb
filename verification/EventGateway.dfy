/** The event gateway: normalisation, and batch insertion that ignores rows already there. */
module EventGateway {
  import opened Common

  datatype Event = Event(
    eventId: string, eventType: string, version: int, project: string, environment: string,
    actor: string, subject: string, source: string, occurredAt: string, receivedAt: string,
    correlation: string, key: string, payload: Option<string>)

  datatype Invalid = MissingEventType | MissingProject | MissingEnvironment | BadTimestamp

  /** What the content fingerprint is computed from. */
  datatype Content = Content(
    project: string, environment: string, eventType: string, version: int, actor: string, subject: string,
    source: string, occurredAt: Option<string>, payload: string)

  /** The timestamp parser and the hash. */
  datatype Host = Host(validTimestamp: string -> bool, fingerprint: Content -> string)

  ghost predicate SoundHost(h: Host) {
    forall c :: h.fingerprint(c) != ""
  }

  /** What the server draws for one event: ids and the clock. */
  datatype Draw = Draw(eventId: string, correlation: string, now: string)

  ghost predicate SoundDraw(h: Host, d: Draw) {
    d.eventId != "" && d.correlation != "" && d.now != "" && h.validTimestamp(d.now)
  }

  datatype Normalized = Normalized(event: Event, invalid: Option<Invalid>)

  function Or(s: string, fallback: string): string { if s == "" then fallback else s }

  function ContentOf(e: Event, clientOccurredAt: bool): Content {
    Content(e.project, e.environment, e.eventType, e.version, e.actor, e.subject, e.source,
            if clientOccurredAt then Some(e.occurredAt) else None, if e.payload.Some? then e.payload.value else "{}")
  }

  /** Fields up to the timestamp check; a failing event keeps the id it was given on the way. */
  function Normalize(h: Host, d: Draw, e: Event): Normalized {
    var e1 := e.(eventId := Or(e.eventId, d.eventId));
    if e1.eventType == "" then Normalized(e1, Some(MissingEventType))
    else if e1.project == "" then Normalized(e1, Some(MissingProject))
    else if e1.environment == "" then Normalized(e1, Some(MissingEnvironment))
    else
      var e2 := e1.(version := if e1.version == 0 then 1 else e1.version,
                    source := Or(e1.source, "server"), occurredAt := Or(e1.occurredAt, d.now));
      if !h.validTimestamp(e2.occurredAt) then Normalized(e2, Some(BadTimestamp))
      else
        var e3 := e2.(receivedAt := Or(e2.receivedAt, d.now), correlation := Or(e2.correlation, d.correlation),
                      payload := if e2.payload.None? then Some("{}") else e2.payload);
        Normalized(e3.(key := Or(e3.key, h.fingerprint(ContentOf(e3, e.occurredAt != "")))), None)
  }

  /** The identity under which an event is stored, computed from what the client sent alone. */
  function StoredKey(h: Host, e: Event): string {
    var v := if e.version == 0 then 1 else e.version;
    Or(e.key, h.fingerprint(ContentOf(e.(version := v, source := Or(e.source, "server")), e.occurredAt != "")))
  }

  /** Normalising twice, with whatever ids and clock, is normalising once; the stored key ignores both draws. */
  lemma NormalizeTwice(h: Host, d: Draw, d': Draw, e: Event)
    requires SoundHost(h) && SoundDraw(h, d)
    requires Normalize(h, d, e).invalid.None?
    ensures Normalize(h, d', Normalize(h, d, e).event) == Normalize(h, d, e)
    ensures Normalize(h, d, e).event.key == StoredKey(h, e) != ""
  {
    var e' := Normalize(h, d, e).event;
    assert e'.key != "" && e'.eventId != "" && e'.correlation != "" && e'.receivedAt != "";
  }

  /** What is wrong with an event, the first thing checked first. */
  predicate Fault(h: Host, d: Draw, e: Event, error: Invalid) {
    match error
    case MissingEventType => e.eventType == ""
    case MissingProject => e.eventType != "" && e.project == ""
    case MissingEnvironment => e.eventType != "" && e.project != "" && e.environment == ""
    case BadTimestamp =>
      && e.eventType != "" && e.project != "" && e.environment != ""
      && !h.validTimestamp(if e.occurredAt == "" then d.now else e.occurredAt)
  }

  /** The row says what the event said; the version 1, the source "server" and the payload `{}` stand for none. */
  predicate Carries(row: Event, e: Event) {
    && row.project == e.project && row.environment == e.environment && row.eventType == e.eventType
    && row.actor == e.actor && row.subject == e.subject
    && (if e.version == 0 then row.version == 1 else row.version == e.version)
    && (if e.source == "" then row.source == "server" else row.source == e.source)
    && (if e.payload.None? then row.payload == Some("{}") else row.payload == e.payload)
    && (e.occurredAt != "" ==> row.occurredAt == e.occurredAt)
    && (e.receivedAt != "" ==> row.receivedAt == e.receivedAt)
    && (e.correlation != "" ==> row.correlation == e.correlation)
    && (e.key != "" ==> row.key == e.key)
  }

  /** What the event left open is as drawn for it. */
  predicate Holds(row: Event, d: Draw, e: Event) {
    && Carries(row, e)
    && row.eventId == (if e.eventId == "" then d.eventId else e.eventId)
    && (e.occurredAt == "" ==> row.occurredAt == d.now)
    && (e.receivedAt == "" ==> row.receivedAt == d.now)
    && (e.correlation == "" ==> row.correlation == d.correlation)
  }

  /** An event is refused exactly for its first fault, and otherwise stored as it was sent. */
  lemma NormalizedHolds(h: Host, d: Draw, e: Event)
    ensures var n := Normalize(h, d, e);
            && (forall error :: n.invalid == Some(error) <==> Fault(h, d, e, error))
            && (n.invalid.None? <==> e.eventType != "" && e.project != "" && e.environment != ""
                                     && h.validTimestamp(if e.occurredAt == "" then d.now else e.occurredAt))
            && (n.invalid.None? ==> Holds(n.event, d, e) && n.event.key == StoredKey(h, e))
  {
  }

  /** Two events without keys of their own that say the same. */
  predicate SameContent(a: Event, b: Event) {
    && a.project == b.project && a.environment == b.environment && a.eventType == b.eventType
    && a.actor == b.actor && a.subject == b.subject
    && (a.version == b.version || {a.version, b.version} == {0, 1})
    && (a.source == b.source || {a.source, b.source} == {"", "server"})
    && a.occurredAt == b.occurredAt
    && (a.payload == b.payload || {a.payload, b.payload} == {None, Some("{}")})
  }

  /** Without keys of their own, events share a stored identity exactly when they say the same, up to collisions. */
  lemma KeylessIdentity(h: Host, a: Event, b: Event)
    requires forall c, c' :: h.fingerprint(c) == h.fingerprint(c') ==> c == c'
    requires a.key == "" && b.key == ""
    ensures StoredKey(h, a) == StoredKey(h, b) <==> SameContent(a, b)
  {
    var va, vb := if a.version == 0 then 1 else a.version, if b.version == 0 then 1 else b.version;
    assert va == vb <==> a.version == b.version || {a.version, b.version} == {0, 1};
    assert Or(a.source, "server") == Or(b.source, "server")
        <==> a.source == b.source || {a.source, b.source} == {"", "server"};
  }

  // ---- The events table ------------------------------------------------------------------

  predicate SameIdentity(a: Event, b: Event) {
    a.project == b.project && a.environment == b.environment && a.key == b.key
  }

  predicate Conflicts(a: Event, b: Event) {
    a.eventId == b.eventId || SameIdentity(a, b)
  }

  /** The unique indexes: the event id, and the idempotency key within a project environment. */
  ghost predicate UniqueRows(rows: seq<Event>) {
    && (forall i, j :: 0 <= i < j < |rows| ==> !Conflicts(rows[i], rows[j]))
    && (forall i :: 0 <= i < |rows| ==> rows[i].eventId != "")
  }

  /** Position of the row stored under the event's identity, or the end. */
  function Find(rows: seq<Event>, e: Event): (i: nat)
    ensures i <= |rows|
    ensures i < |rows| ==> SameIdentity(rows[i], e)
    ensures forall j :: 0 <= j < i ==> !SameIdentity(rows[j], e)
  {
    if rows == [] then 0
    else if SameIdentity(rows[0], e) then 0
    else
      var i := Find(rows[1..], e);
      assert forall j :: 1 <= j < i + 1 ==> rows[j] == rows[1..][j - 1];
      i + 1
  }

  datatype Status = Inserted | Duplicate | Rejected(error: Invalid)

  datatype IngestResult = IngestResult(eventId: string, status: Status)

  datatype Ingested = Ingested(rows: seq<Event>, results: seq<IngestResult>)

  /** Insert unless some unique index objects; a replayed key reports the original event's id. */
  function InsertEvent(rows: seq<Event>, e: Event): (seq<Event>, IngestResult) {
    if exists r :: r in rows && Conflicts(r, e) then
      var i := Find(rows, e);
      var existing := if i < |rows| then rows[i].eventId else "";
      (rows, IngestResult(Or(existing, e.eventId), Duplicate))
    else (rows + [e], IngestResult(e.eventId, Inserted))
  }

  function IngestOne(h: Host, rows: seq<Event>, d: Draw, e: Event): (seq<Event>, IngestResult) {
    var n := Normalize(h, d, e);
    match n.invalid
    case Some(error) => (rows, IngestResult(n.event.eventId, Rejected(error)))
    case None => InsertEvent(rows, n.event)
  }

  function Ingest(h: Host, rows: seq<Event>, ds: seq<Draw>, es: seq<Event>): (r: Ingested)
    requires |ds| == |es|
    ensures |r.results| == |es|
  {
    if es == [] then Ingested(rows, [])
    else
      var rest := Ingest(h, rows, ds[..|es| - 1], es[..|es| - 1]);
      var (rows', result) := IngestOne(h, rest.rows, ds[|es| - 1], es[|es| - 1]);
      Ingested(rows', rest.results + [result])
  }

  class EventStore {
    var rows: seq<Event>

    constructor ()
      ensures rows == []
    {
      rows := [];
    }

    /** One transaction over the batch. */
    method IngestBatch(h: Host, ds: seq<Draw>, es: seq<Event>) returns (results: seq<IngestResult>)
      requires |ds| == |es|
      modifies this
      ensures Ingested(rows, results) == Ingest(h, old(rows), ds, es)
    {
      results := [];
      for i := 0 to |es|
        invariant Ingested(rows, results) == Ingest(h, old(rows), ds[..i], es[..i])
      {
        var n := Normalize(h, ds[i], es[i]);
        assert ds[..i + 1][..i] == ds[..i] && es[..i + 1][..i] == es[..i];
        match n.invalid {
          case Some(error) =>
            results := results + [IngestResult(n.event.eventId, Rejected(error))];
          case None =>
            var (rows', result) := InsertEvent(rows, n.event);
            rows := rows';
            results := results + [result];
        }
      }
      assert ds[..|es|] == ds && es[..|es|] == es;
    }
  }

  // ---- What ingestion guarantees ---------------------------------------------------------

  /** The row that stands for an event the client sent. */
  ghost predicate StandsFor(h: Host, row: Event, e: Event) {
    row.project == e.project && row.environment == e.environment && row.key == StoredKey(h, e)
  }

  ghost predicate AllSound(h: Host, ds: seq<Draw>) { forall i :: 0 <= i < |ds| ==> SoundDraw(h, ds[i]) }

  /** Some row stands for the event. */
  ghost predicate Stored(h: Host, rows: seq<Event>, e: Event) { exists row :: row in rows && StandsFor(h, row, e) }

  /** The id the event would be stored under: its own, or the one drawn for it. */
  function IdFor(d: Draw, e: Event): string { Or(e.eventId, d.eventId) }

  ghost predicate IdHeld(rows: seq<Event>, id: string) { exists row :: row in rows && row.eventId == id }

  /** The result names a row that stands for the event. */
  ghost predicate NamesRow(h: Host, rows: seq<Event>, e: Event, r: IngestResult) {
    exists row :: row in rows && StandsFor(h, row, e) && row.eventId == r.eventId
  }

  /** The event is new, but its id belongs to a row of another identity. */
  ghost predicate IdTaken(h: Host, rows: seq<Event>, d: Draw, e: Event) {
    !Stored(h, rows, e) && IdHeld(rows, IdFor(d, e))
  }

  /** The result names a row that holds the event as it was sent and drawn for. */
  ghost predicate NamesHolder(rows: seq<Event>, d: Draw, e: Event, r: IngestResult) {
    exists row :: row in rows && Holds(row, d, e) && row.eventId == r.eventId
  }

  /**
   * A result answers its own event. A rejected event has that fault. Any other result names a row that stands for
   * the event, except exactly when the event's id was taken in the rows `before` its turn: then it reads as a
   * duplicate of itself. An inserted event's row holds what was sent.
   */
  ghost predicate Answers(h: Host, before: seq<Event>, after: seq<Event>, d: Draw, e: Event, r: IngestResult) {
    match r.status
    case Rejected(error) => Fault(h, d, e, error)
    case _ =>
      && (forall error :: !Fault(h, d, e, error))
      && (r.status == Inserted ==> NamesHolder(after, d, e, r))
      && (NamesRow(h, after, e, r) <==> !IdTaken(h, before, d, e))
      && (IdTaken(h, before, d, e) ==> r == IngestResult(IdFor(d, e), Duplicate))
      && (r.status == Inserted <==> !Stored(h, before, e) && !IdHeld(before, IdFor(d, e)))
  }

  /** The row was inserted for one of the batch's events and holds it. */
  ghost predicate FromBatch(h: Host, row: Event, ds: seq<Draw>, es: seq<Event>)
    requires |ds| == |es|
  {
    exists i :: 0 <= i < |es| && StandsFor(h, row, es[i]) && Holds(row, ds[i], es[i])
  }

  /** The rows an event of the batch finds when its turn comes. */
  function RowsBefore(h: Host, rows: seq<Event>, ds: seq<Draw>, es: seq<Event>, i: nat): seq<Event>
    requires |ds| == |es| && i <= |es|
  {
    Ingest(h, rows, ds[..i], es[..i]).rows
  }

  /** After a batch: old rows kept in place, indexes unique, every event answered, no row from nowhere. */
  ghost predicate Correct(h: Host, rows: seq<Event>, ds: seq<Draw>, es: seq<Event>, r: Ingested)
    requires |ds| == |es|
  {
    && rows <= r.rows && UniqueRows(r.rows) && |r.results| == |es|
    && (forall i :: 0 <= i < |es| ==> Answers(h, RowsBefore(h, rows, ds, es, i), r.rows, ds[i], es[i], r.results[i]))
    && (forall row :: row in r.rows && row !in rows ==> FromBatch(h, row, ds, es))
  }

  /** Whatever ids the client chose, and whatever was drawn. */
  lemma {:induction false} IngestCorrect(h: Host, rows: seq<Event>, ds: seq<Draw>, es: seq<Event>)
    requires SoundHost(h) && UniqueRows(rows) && |ds| == |es| && AllSound(h, ds)
    ensures Correct(h, rows, ds, es, Ingest(h, rows, ds, es))
  {
    hide UniqueRows, IngestOne;
    if es == [] {
    } else {
      var n := |es| - 1;
      IngestCorrect(h, rows, ds[..n], es[..n]);
      IngestStep(h, rows, ds, es, Ingest(h, rows, ds[..n], es[..n]));
    }
  }

  lemma IngestStep(h: Host, rows: seq<Event>, ds: seq<Draw>, es: seq<Event>, mid: Ingested)
    requires SoundHost(h) && |ds| == |es| > 0 && SoundDraw(h, ds[|es| - 1])
    requires mid == Ingest(h, rows, ds[..|es| - 1], es[..|es| - 1])
    requires Correct(h, rows, ds[..|es| - 1], es[..|es| - 1], mid)
    ensures var (after, r) := IngestOne(h, mid.rows, ds[|es| - 1], es[|es| - 1]);
            Correct(h, rows, ds, es, Ingested(after, mid.results + [r]))
  {
    hide IngestOne, UniqueRows, Ingest, Answers, StandsFor, Holds;
    var n := |es| - 1;
    var (after, r) := IngestOne(h, mid.rows, ds[n], es[n]);
    IngestOneCorrect(h, mid.rows, ds[n], es[n]);
    forall i | 0 <= i < |es|
      ensures Answers(h, RowsBefore(h, rows, ds, es, i), after, ds[i], es[i], (mid.results + [r])[i])
    {
      if i < n {
        assert ds[..n][..i] == ds[..i] && es[..n][..i] == es[..i];
        assert Answers(h, RowsBefore(h, rows, ds, es, i), mid.rows, ds[i], es[i], mid.results[i]);
        RowsGrow(h, rows, ds[..n], es[..n], i);
        AnswerStays(h, RowsBefore(h, rows, ds, es, i), mid.rows, after, ds[i], es[i], mid.results[i]);
      }
    }
    forall row | row in after && row !in rows ensures FromBatch(h, row, ds, es) {
      if row in mid.rows { FromPrefix(h, row, ds, es); }
    }
  }

  lemma FromPrefix(h: Host, row: Event, ds: seq<Draw>, es: seq<Event>)
    requires |ds| == |es| > 0 && FromBatch(h, row, ds[..|es| - 1], es[..|es| - 1])
    ensures FromBatch(h, row, ds, es)
  {
    hide StandsFor, Holds;
    var n := |es| - 1;
    var i :| 0 <= i < n && StandsFor(h, row, es[..n][i]) && Holds(row, ds[..n][i], es[..n][i]);
    assert StandsFor(h, row, es[i]) && Holds(row, ds[i], es[i]);
  }

  /** Later rows do not change what an earlier result says: the id it names has its row already. */
  lemma AnswerStays(
      h: Host, before: seq<Event>, mid: seq<Event>, after: seq<Event>, d: Draw, e: Event, r: IngestResult)
    requires Answers(h, before, mid, d, e, r) && before <= mid <= after && UniqueRows(after)
    ensures Answers(h, before, after, d, e, r)
  {
    hide StandsFor, IdTaken, Stored, Holds, Fault;
    if !r.status.Rejected? {
      if r.status == Inserted {
        var row :| row in mid && Holds(row, d, e) && row.eventId == r.eventId;
        assert row in after;
      }
      if NamesRow(h, mid, e, r) {
        var row :| row in mid && StandsFor(h, row, e) && row.eventId == r.eventId;
        assert row in after;
      }
      if IdTaken(h, before, d, e) {
        var held := HolderOf(h, before, d, e);
        assert held in mid && held in after;
        forall row | row in after && row.eventId == r.eventId ensures row == held { SameIdSameRow(after, row, held); }
      }
    }
  }

  lemma HolderOf(h: Host, rows: seq<Event>, d: Draw, e: Event) returns (row: Event)
    requires IdTaken(h, rows, d, e)
    ensures row in rows && row.eventId == IdFor(d, e)
  {
    row :| row in rows && row.eventId == IdFor(d, e);
  }

  lemma {:induction false} RowsGrow(h: Host, rows: seq<Event>, ds: seq<Draw>, es: seq<Event>, i: nat)
    requires |ds| == |es| && i <= |es|
    ensures RowsBefore(h, rows, ds, es, i) <= Ingest(h, rows, ds, es).rows
  {
    hide Normalize;
    if i == |es| {
      assert ds[..i] == ds && es[..i] == es;
    } else {
      var n := |es| - 1;
      RowsGrow(h, rows, ds[..n], es[..n], i);
      assert ds[..n][..i] == ds[..i] && es[..n][..i] == es[..i];
    }
  }

  lemma SameIdSameRow(rows: seq<Event>, a: Event, b: Event)
    requires UniqueRows(rows) && a in rows && b in rows && a.eventId == b.eventId
    ensures a == b
  {
    var i :| 0 <= i < |rows| && rows[i] == a;
    var j :| 0 <= j < |rows| && rows[j] == b;
  }

  lemma IngestOneCorrect(h: Host, rows: seq<Event>, d: Draw, e: Event)
    requires SoundHost(h) && UniqueRows(rows) && SoundDraw(h, d)
    ensures var (after, r) := IngestOne(h, rows, d, e);
            && rows <= after && UniqueRows(after) && Answers(h, rows, after, d, e, r)
            && (forall row :: row in after && row !in rows ==> StandsFor(h, row, e) && Holds(row, d, e))
  {
    hide Normalize, StoredKey, ContentOf, UniqueRows, Holds, Fault;
    var n := Normalize(h, d, e);
    NormalizedFields(h, d, e);
    NormalizedHolds(h, d, e);
    if n.invalid.None? {
      NormalizeTwice(h, d, d, e);
      InsertInvariant(rows, n.event);
      IdentityIsStanding(h, rows, d, e);
      hide InsertEvent;
    }
  }

  lemma IdentityIsStanding(h: Host, rows: seq<Event>, d: Draw, e: Event)
    requires SoundHost(h) && SoundDraw(h, d) && Normalize(h, d, e).invalid.None?
    ensures forall row :: SameIdentity(row, Normalize(h, d, e).event) <==> StandsFor(h, row, e)
    ensures IdentityStored(rows, Normalize(h, d, e).event) <==> Stored(h, rows, e)
  {
    hide Normalize, StoredKey, ContentOf;
    NormalizedFields(h, d, e);
    NormalizeTwice(h, d, d, e);
    var e' := Normalize(h, d, e).event;
    if IdentityStored(rows, e') {
      var row :| row in rows && SameIdentity(row, e');
      assert StandsFor(h, row, e);
    }
    if Stored(h, rows, e) {
      var row :| row in rows && StandsFor(h, row, e);
      assert SameIdentity(row, e');
    }
  }

  lemma NormalizedFields(h: Host, d: Draw, e: Event)
    ensures var e' := Normalize(h, d, e).event;
            && e'.project == e.project && e'.environment == e.environment && e'.eventId == IdFor(d, e)
  {
  }

  ghost predicate IdentityStored(rows: seq<Event>, e: Event) { exists row :: row in rows && SameIdentity(row, e) }

  /**
   * Inserting an event: refused by the one row with its identity, whose id is reported; else refused by the row
   * that holds its id, and its own id is reported; else stored at the end.
   */
  lemma InsertInvariant(rows: seq<Event>, e: Event)
    requires UniqueRows(rows) && e.eventId != ""
    ensures var (after, r) := InsertEvent(rows, e);
            && UniqueRows(after)
            && (if IdentityStored(rows, e) then
                  after == rows && r.status == Duplicate
                  && exists row :: row in rows && SameIdentity(row, e) && row.eventId == r.eventId
                else if IdHeld(rows, e.eventId) then
                  after == rows && r == IngestResult(e.eventId, Duplicate)
                else after == rows + [e] && r == IngestResult(e.eventId, Inserted))
  {
    var i := Find(rows, e);
    if i < |rows| {
      assert rows[i] in rows && Conflicts(rows[i], e);
    } else {
      assert forall r :: r in rows ==> !SameIdentity(r, e);
      if IdHeld(rows, e.eventId) {
        var row :| row in rows && row.eventId == e.eventId;
        assert Conflicts(row, e);
      }
    }
  }

  /** A taken id: the event reads as a duplicate, nothing is stored, and no row stands for it. */
  lemma TakenIdUnanswered(h: Host, row: Event, d: Draw, e: Event)
    requires SoundHost(h) && SoundDraw(h, d) && row.eventId != "" && Normalize(h, d, e).invalid.None?
    requires e.eventId == row.eventId && !StandsFor(h, row, e)
    ensures IngestOne(h, [row], d, e) == ([row], IngestResult(e.eventId, Duplicate)) && !Stored(h, [row], e)
  {
    hide Normalize, StoredKey, UniqueRows, InsertEvent;
    assert UniqueRows([row]) by { SingleRow(row); }
    NormalizedFields(h, d, e);
    IdentityIsStanding(h, [row], d, e);
    InsertInvariant([row], Normalize(h, d, e).event);
    assert row in [row];
  }

  lemma SingleRow(row: Event)
    requires row.eventId != ""
    ensures UniqueRows([row])
  {
  }

  /** The draws collide neither with stored ids nor with each other. */
  ghost predicate FreshDraws(h: Host, rows: seq<Event>, ds: seq<Draw>) {
    && AllSound(h, ds)
    && (forall i, r :: 0 <= i < |ds| && r in rows ==> ds[i].eventId != r.eventId)
    && (forall i, j :: 0 <= i < j < |ds| ==> ds[i].eventId != ds[j].eventId)
  }

  lemma FreshAreSound(h: Host, rows: seq<Event>, ds: seq<Draw>)
    requires FreshDraws(h, rows, ds)
    ensures AllSound(h, ds)
  {
  }

  /** Ids left to the server are never taken. */
  lemma DrawnIdsFree(h: Host, rows: seq<Event>, ds: seq<Draw>, es: seq<Event>, i: nat)
    requires SoundHost(h) && UniqueRows(rows) && |ds| == |es| && FreshDraws(h, rows, ds) && i < |es|
    requires forall e :: e in es ==> e.eventId == ""
    ensures !IdTaken(h, RowsBefore(h, rows, ds, es, i), ds[i], es[i])
  {
    hide UniqueRows, Ingest, StandsFor, Stored, Answers;
    IngestCorrect(h, rows, ds[..i], es[..i]);
    assert es[i] in es;
    forall row | row in RowsBefore(h, rows, ds, es, i) ensures row.eventId != ds[i].eventId {
      if row !in rows {
        assert FromBatch(h, row, ds[..i], es[..i]);
        var j :| 0 <= j < i && Holds(row, ds[..i][j], es[..i][j]);
        assert es[j] in es;
      }
    }
  }

  /** Every event of the batch is either stored already or invalid. */
  ghost predicate Settled(h: Host, rows: seq<Event>, ds: seq<Draw>, es: seq<Event>)
    requires |ds| == |es|
  {
    forall i :: 0 <= i < |es| ==>
      Normalize(h, ds[i], es[i]).invalid.Some? || exists row :: row in rows && StandsFor(h, row, es[i])
  }

  lemma ReplayOne(h: Host, rows: seq<Event>, d: Draw, e: Event)
    requires SoundHost(h) && UniqueRows(rows) && SoundDraw(h, d)
    requires Normalize(h, d, e).invalid.Some? || exists row :: row in rows && StandsFor(h, row, e)
    ensures var (after, result) := IngestOne(h, rows, d, e);
            && after == rows
            && forall row :: row in rows && StandsFor(h, row, e) && Normalize(h, d, e).invalid.None? ==>
                 result == IngestResult(row.eventId, Duplicate)
  {
    hide Normalize, StoredKey, ContentOf, UniqueRows, InsertEvent;
    var n := Normalize(h, d, e);
    NormalizedFields(h, d, e);
    if n.invalid.None? {
      NormalizeTwice(h, d, d, e);
      forall row | row in rows && StandsFor(h, row, e)
        ensures InsertEvent(rows, n.event) == (rows, IngestResult(row.eventId, Duplicate))
      {
        RefusedByItsRow(rows, n.event, row);
      }
    }
  }

  /** Sending a settled batch again changes nothing and names, for every valid event, the original row. */
  lemma {:induction false} ReplayIsHarmless(h: Host, rows: seq<Event>, ds: seq<Draw>, es: seq<Event>)
    requires SoundHost(h) && UniqueRows(rows) && |ds| == |es| && Settled(h, rows, ds, es)
    requires forall d :: d in ds ==> SoundDraw(h, d)
    ensures var r := Ingest(h, rows, ds, es);
            && r.rows == rows
            && forall i, row ::
                 0 <= i < |es| && row in rows && StandsFor(h, row, es[i]) && Normalize(h, ds[i], es[i]).invalid.None?
                 ==> r.results[i] == IngestResult(row.eventId, Duplicate)
  {
    hide Normalize, StandsFor, IngestOne, UniqueRows, SoundHost, SoundDraw;
    if es == [] {
    } else {
      var n := |es| - 1;
      ReplayIsHarmless(h, rows, ds[..n], es[..n]);
      ReplayOne(h, rows, ds[n], es[n]);
    }
  }

  lemma OneRowPerKey(rows: seq<Event>, a: Event, b: Event)
    requires UniqueRows(rows) && a in rows && b in rows && SameIdentity(a, b)
    ensures a == b
  {
    var i :| 0 <= i < |rows| && rows[i] == a;
    var j :| 0 <= j < |rows| && rows[j] == b;
  }

  lemma RefusedByItsRow(rows: seq<Event>, e: Event, row: Event)
    requires UniqueRows(rows) && row in rows && SameIdentity(row, e)
    ensures InsertEvent(rows, e) == (rows, IngestResult(row.eventId, Duplicate))
  {
    assert Conflicts(row, e);
    var k :| 0 <= k < |rows| && rows[k] == row;
    var i := Find(rows, e);
    OneRowPerKey(rows, rows[i], row);
  }

  // ---- The HTTP handler ------------------------------------------------------------------

  const MAX_EVENTS: nat := 500

  datatype Reply =
    | Success(results: seq<IngestResult>, inserted: nat, duplicates: nat)
    | HttpError(status: int)
    | NetworkError

  function Scoped(project: string, environment: string, e: Event): Event {
    e.(project := project, environment := environment)
  }

  function ScopedAll(project: string, environment: string, es: seq<Event>): seq<Event> {
    seq(|es|, i requires 0 <= i < |es| => Scoped(project, environment, es[i]))
  }

  predicate Acceptable(h: Host, d: Draw, e: Event) {
    e.actor != "" && Normalize(h, d, e).invalid.None?
  }

  function NormalizedAll(h: Host, ds: seq<Draw>, es: seq<Event>): (r: seq<Event>)
    requires |ds| == |es|
    ensures |r| == |es|
  {
    seq(|es|, i requires 0 <= i < |es| => Normalize(h, ds[i], es[i]).event)
  }

  function CountStatus(rs: seq<IngestResult>, s: Status): nat {
    if rs == [] then 0 else CountStatus(rs[..|rs| - 1], s) + if rs[|rs| - 1].status == s then 1 else 0
  }

  /** The whole request is checked and normalised before anything is inserted, and insertion normalises again. */
  function Handle(h: Host, rows: seq<Event>, ds: seq<Draw>, es: seq<Event>): (seq<Event>, Reply)
    requires |ds| == |es|
  {
    if es == [] then (rows, HttpError(422))
    else if |es| > MAX_EVENTS then (rows, HttpError(413))
    else if exists i :: 0 <= i < |es| && !Acceptable(h, ds[i], es[i]) then (rows, HttpError(422))
    else
      var r := Ingest(h, rows, ds, NormalizedAll(h, ds, es));
      (r.rows, Success(r.results, CountStatus(r.results, Inserted), CountStatus(r.results, Duplicate)))
  }

  /** The validation loop: the scope overrides the event's own, and the first bad event stops the request. */
  method CheckRequest(h: Host, project: string, environment: string, ds: seq<Draw>, es: seq<Event>)
    returns (normalized: Option<seq<Event>>)
    requires |ds| == |es|
    ensures var scoped := ScopedAll(project, environment, es);
            if exists i :: 0 <= i < |es| && !Acceptable(h, ds[i], scoped[i]) then normalized == None
            else normalized == Some(NormalizedAll(h, ds, scoped))
  {
    ghost var scoped := ScopedAll(project, environment, es);
    var out := [];
    for i := 0 to |es|
      invariant |out| == i && forall j :: 0 <= j < i ==>
                  Acceptable(h, ds[j], scoped[j]) && out[j] == Normalize(h, ds[j], scoped[j]).event
    {
      var e := Scoped(project, environment, es[i]);
      assert e == scoped[i];
      if e.actor == "" { return None; }
      var n := Normalize(h, ds[i], e);
      if n.invalid.Some? { return None; }
      out := out + [n.event];
    }
    assert out == NormalizedAll(h, ds, scoped);
    normalized := Some(out);
  }

  method CountResults(results: seq<IngestResult>) returns (inserted: nat, duplicates: nat)
    ensures inserted == CountStatus(results, Inserted) && duplicates == CountStatus(results, Duplicate)
  {
    inserted, duplicates := 0, 0;
    for i := 0 to |results|
      invariant inserted == CountStatus(results[..i], Inserted) && duplicates == CountStatus(results[..i], Duplicate)
    {
      assert results[..i + 1][..i] == results[..i];
      match results[i].status {
        case Inserted => inserted := inserted + 1;
        case Duplicate => duplicates := duplicates + 1;
        case Rejected(_) =>
      }
    }
    assert results[..|results|] == results;
  }

  method IngestEvents(
      store: EventStore, h: Host, project: string, environment: string, ds: seq<Draw>, es: seq<Event>)
    returns (reply: Reply)
    requires |ds| == |es|
    modifies store
    ensures (store.rows, reply) == Handle(h, old(store.rows), ds, ScopedAll(project, environment, es))
  {
    hide Acceptable;
    if es == [] { return HttpError(422); }
    if |es| > MAX_EVENTS { return HttpError(413); }
    var normalized := CheckRequest(h, project, environment, ds, es);
    if normalized.None? { return HttpError(422); }
    var results := store.IngestBatch(h, ds, normalized.value);
    var inserted, duplicates := CountResults(results);
    reply := Success(results, inserted, duplicates);
  }

  lemma IngestOneNormalized(h: Host, rows: seq<Event>, d: Draw, e: Event)
    requires SoundHost(h) && SoundDraw(h, d) && Normalize(h, d, e).invalid.None?
    ensures IngestOne(h, rows, d, Normalize(h, d, e).event) == IngestOne(h, rows, d, e)
  {
    hide Normalize, SoundHost, SoundDraw;
    NormalizeTwice(h, d, d, e);
  }

  lemma NormalizedPrefix(h: Host, ds: seq<Draw>, es: seq<Event>, n: nat)
    requires |ds| == |es| == n + 1
    ensures NormalizedAll(h, ds, es)[..n] == NormalizedAll(h, ds[..n], es[..n])
    ensures NormalizedAll(h, ds, es)[n] == Normalize(h, ds[n], es[n]).event
  {
    hide Normalize;
  }

  /** The second normalisation is invisible: inserting the normalised batch is inserting the batch. */
  lemma {:induction false} IngestNormalized(h: Host, rows: seq<Event>, ds: seq<Draw>, es: seq<Event>)
    requires SoundHost(h) && |ds| == |es| && (forall d :: d in ds ==> SoundDraw(h, d))
    requires forall i :: 0 <= i < |es| ==> Normalize(h, ds[i], es[i]).invalid.None?
    ensures Ingest(h, rows, ds, NormalizedAll(h, ds, es)) == Ingest(h, rows, ds, es)
  {
    hide Normalize, NormalizedAll, IngestOne, SoundHost, SoundDraw;
    if es == [] {
    } else {
      var n := |es| - 1;
      IngestNormalized(h, rows, ds[..n], es[..n]);
      NormalizedPrefix(h, ds, es, n);
      IngestOneNormalized(h, Ingest(h, rows, ds[..n], es[..n]).rows, ds[n], es[n]);
    }
  }

  lemma OneCounted(h: Host, rows: seq<Event>, d: Draw, e: Event)
    ensures var (after, result) := IngestOne(h, rows, d, e);
            && |after| == |rows| + (if result.status == Inserted then 1 else 0)
            && (result.status.Rejected? <==> Normalize(h, d, e).invalid.Some?)
  {
    hide Normalize;
  }

  /** The reported counts are true: exactly `inserted` rows were added, and every other event was a duplicate. */
  lemma {:induction false} CountsAreTrue(h: Host, rows: seq<Event>, ds: seq<Draw>, es: seq<Event>)
    requires |ds| == |es|
    ensures var r := Ingest(h, rows, ds, es);
            && |r.rows| == |rows| + CountStatus(r.results, Inserted)
            && ((forall i :: 0 <= i < |es| ==> Normalize(h, ds[i], es[i]).invalid.None?) ==>
                  CountStatus(r.results, Inserted) + CountStatus(r.results, Duplicate) == |es|)
  {
    hide Normalize, IngestOne;
    if es == [] {
    } else {
      var n := |es| - 1;
      CountsAreTrue(h, rows, ds[..n], es[..n]);
      OneCounted(h, Ingest(h, rows, ds[..n], es[..n]).rows, ds[n], es[n]);
      assert Ingest(h, rows, ds, es).results[..n] == Ingest(h, rows, ds[..n], es[..n]).results;
    }
  }

  /** What a request changes and what its reply says. */
  lemma HandleCorrect(h: Host, rows: seq<Event>, ds: seq<Draw>, es: seq<Event>)
    requires SoundHost(h) && UniqueRows(rows) && |ds| == |es| && AllSound(h, ds)
    ensures var (after, reply) := Handle(h, rows, ds, es);
            && (reply.HttpError? ==> after == rows)
            && (reply.Success? ==>
                  && Correct(h, rows, ds, es, Ingested(after, reply.results))
                  && (forall r :: r in reply.results ==> !r.status.Rejected?)
                  && |after| == |rows| + reply.inserted && reply.inserted + reply.duplicates == |es|)
            && !reply.NetworkError?
  {
    hide Normalize, UniqueRows, Correct;
    var (after, reply) := Handle(h, rows, ds, es);
    if reply.Success? {
      assert forall i :: 0 <= i < |es| ==> Acceptable(h, ds[i], es[i]);
      IngestNormalized(h, rows, ds, es);
      IngestCorrect(h, rows, ds, es);
      CountsAreTrue(h, rows, ds, es);
      NoneRejected(h, rows, ds, es);
    }
  }

  /** When a request is refused, and with which status. */
  lemma HandleRefuses(h: Host, rows: seq<Event>, ds: seq<Draw>, es: seq<Event>)
    requires |ds| == |es|
    ensures var (_, reply) := Handle(h, rows, ds, es);
            && (reply == HttpError(413) <==> |es| > 500)
            && (reply == HttpError(422) <==>
                  es == [] || (|es| <= 500 && exists i :: 0 <= i < |es| && Unacceptable(h, ds[i], es[i])))
            && (reply.HttpError? ==> reply.status == 413 || reply.status == 422)
  {
    hide Normalize, Ingest, Fault;
    forall i | 0 <= i < |es| ensures Acceptable(h, ds[i], es[i]) <==> !Unacceptable(h, ds[i], es[i]) {
      NormalizedHolds(h, ds[i], es[i]);
    }
  }

  /** The event names no actor, or has a fault. */
  ghost predicate Unacceptable(h: Host, d: Draw, e: Event) { e.actor == "" || exists error :: Fault(h, d, e, error) }

  lemma {:induction false} NoneRejected(h: Host, rows: seq<Event>, ds: seq<Draw>, es: seq<Event>)
    requires |ds| == |es| && forall i :: 0 <= i < |es| ==> Normalize(h, ds[i], es[i]).invalid.None?
    ensures forall r :: r in Ingest(h, rows, ds, es).results ==> !r.status.Rejected?
  {
    hide Normalize, IngestOne;
    if es == [] {
    } else {
      var n := |es| - 1;
      NoneRejected(h, rows, ds[..n], es[..n]);
      OneCounted(h, Ingest(h, rows, ds[..n], es[..n]).rows, ds[n], es[n]);
    }
  }

  /** When ids are left to the server, a successful reply names a row for every event of the request. */
  lemma HandleNamesAll(h: Host, rows: seq<Event>, ds: seq<Draw>, es: seq<Event>)
    requires SoundHost(h) && UniqueRows(rows) && |ds| == |es| && FreshDraws(h, rows, ds)
    requires forall e :: e in es ==> e.eventId == ""
    ensures var (after, reply) := Handle(h, rows, ds, es);
            && rows <= after && UniqueRows(after)
            && (reply.Success? ==>
                  && |reply.results| == |es|
                  && forall i :: 0 <= i < |es| ==>
                       !reply.results[i].status.Rejected? && NamesRow(h, after, es[i], reply.results[i]))
            && (forall row :: row in after && row !in rows ==> FromBatch(h, row, ds, es))
  {
    hide UniqueRows, FreshDraws, Handle, StandsFor, IdTaken, RowsBefore, NamesRow, FromBatch;
    FreshAreSound(h, rows, ds);
    HandleCorrect(h, rows, ds, es);
    var (after, reply) := Handle(h, rows, ds, es);
    if reply.Success? {
      forall i | 0 <= i < |es|
        ensures !reply.results[i].status.Rejected? && NamesRow(h, after, es[i], reply.results[i])
      {
        assert Answers(h, RowsBefore(h, rows, ds, es, i), after, ds[i], es[i], reply.results[i]);
        assert reply.results[i] in reply.results;
        DrawnIdsFree(h, rows, ds, es, i);
      }
    }
  }
}
