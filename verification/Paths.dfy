/** Looking up dotted paths in a scope that holds both flat dotted keys and nested objects. */
module Paths {
  import opened Common

  datatype Json = Leaf(text: string) | Object(fields: map<string, Json>)

  type Fields = map<string, Json>

  predicate DotFree(s: string) { '.' !in s }

  ghost predicate AllDotFree(segments: seq<string>) { forall s :: s in segments ==> DotFree(s) }

  function Split(s: string): (segments: seq<string>)
    ensures |segments| >= 1
  {
    if s == "" then [""]
    else
      var rest := Split(s[1..]);
      if s[0] == '.' then [""] + rest else [[s[0]] + rest[0]] + rest[1..]
  }

  function Join(segments: seq<string>): string
    requires segments != []
  {
    if |segments| == 1 then segments[0] else segments[0] + "." + Join(segments[1..])
  }

  // ---- Splitting and joining are inverse -------------------------------------------------

  lemma {:induction false} JoinSplit(s: string)
    ensures Join(Split(s)) == s && AllDotFree(Split(s))
  {
    if s == "" {
    } else {
      JoinSplit(s[1..]);
      var rest, all := Split(s[1..]), Split(s);
      assert s == [s[0]] + s[1..];
      if s[0] == '.' {
        assert all[1..] == rest;
      } else {
        assert all[1..] == rest[1..];
        forall x | x in all ensures DotFree(x) {
          if x == all[0] { assert DotFree(rest[0]); } else { assert x in rest; }
        }
      }
    }
  }

  lemma {:induction false} SplitWord(word: string)
    requires DotFree(word)
    ensures Split(word) == [word]
  {
    if word == "" {
    } else {
      SplitWord(word[1..]);
      assert word == [word[0]] + word[1..];
    }
  }

  lemma {:induction false} SplitAfter(word: string, tail: string)
    requires DotFree(word)
    ensures Split(word + "." + tail) == [word] + Split(tail)
  {
    var s := word + "." + tail;
    if word == "" {
      assert s[1..] == tail;
    } else {
      SplitAfter(word[1..], tail);
      assert s[1..] == word[1..] + "." + tail;
      assert word == [word[0]] + word[1..];
    }
  }

  lemma {:induction false} SplitJoin(segments: seq<string>)
    requires segments != [] && AllDotFree(segments)
    ensures Split(Join(segments)) == segments
  {
    if |segments| == 1 {
      SplitWord(segments[0]);
    } else {
      SplitJoin(segments[1..]);
      SplitAfter(segments[0], Join(segments[1..]));
    }
  }

  // ---- Resolution ------------------------------------------------------------------------

  function Walk(fields: Fields, segments: seq<string>): Option<Json>
    requires segments != []
    decreases |segments|
  {
    if segments[0] !in fields then None
    else if |segments| == 1 then Some(fields[segments[0]])
    else
      match fields[segments[0]]
      case Object(inner) => Walk(inner, segments[1..])
      case Leaf(_) => None
  }

  /** The object stored under the first `take` segments, walked through the others. */
  function Under(scope: Fields, segments: seq<string>, take: nat): Option<Json>
    requires 0 < take < |segments|
  {
    var prefix := Join(segments[..take]);
    if prefix in scope && scope[prefix].Object? then Walk(scope[prefix].fields, segments[take..]) else None
  }

  /** The longest stored prefix of at most `take` segments that leads to a value. */
  function LongestPrefix(scope: Fields, segments: seq<string>, take: nat): Option<Json>
    requires take < |segments|
  {
    if take == 0 then None
    else
      var found := Under(scope, segments, take);
      if found.Some? then found else LongestPrefix(scope, segments, take - 1)
  }

  function Resolve(scope: Fields, path: string): Option<Json> {
    var segments := Split(path);
    if path == "" then None
    else if path in scope then Some(scope[path])
    else if |segments| < 2 then None
    else LongestPrefix(scope, segments, |segments| - 1)
  }

  method WalkPath(fields: Fields, segments: seq<string>) returns (r: Option<Json>)
    requires segments != []
    ensures r == Walk(fields, segments)
  {
    if segments[0] !in fields { return None; }
    var cur := fields[segments[0]];
    for i := 1 to |segments|
      invariant Walk(fields, segments)
                == if i == |segments| then Some(cur)
                   else if cur.Object? then Walk(cur.fields, segments[i..]) else None
    {
      if cur.Leaf? || segments[i] !in cur.fields { return None; }
      assert segments[i..][1..] == segments[i + 1..];
      cur := cur.fields[segments[i]];
    }
    r := Some(cur);
  }

  /** The third step, walking from the first segment, is kept as in the source; the contract shows it adds nothing. */
  method ResolvePath(scope: Fields, path: string) returns (r: Option<Json>)
    ensures r == Resolve(scope, path)
  {
    if path == "" { return None; }
    if path in scope { return Some(scope[path]); }
    var segments := Split(path);
    if |segments| < 2 { return None; }
    var take := |segments| - 1;
    while take > 0
      invariant 0 <= take < |segments|
      invariant Resolve(scope, path) == LongestPrefix(scope, segments, take)
      invariant take < |segments| - 1 ==> Under(scope, segments, take + 1).None?
    {
      var prefix := Join(segments[..take]);
      if prefix in scope && scope[prefix].Object? {
        var found := WalkPath(scope[prefix].fields, segments[take..]);
        if found.Some? { return found; }
      }
      take := take - 1;
    }
    assert Under(scope, segments, 1).None? && Join(segments[..1]) == segments[0];
    if segments[0] in scope && scope[segments[0]].Object? {
      var found := WalkPath(scope[segments[0]].fields, segments[1..]);
      if found.Some? { return found; }
    }
    r := None;
  }

  // ---- The scope an event is processed in ------------------------------------------------

  datatype Event = Event(id: string, kind: string, version: string, actor: string, subject: string, payload: Fields)

  const EVENT := ["event"]
  const PAYLOAD := ["event", "payload"]

  const PREFIX := "event.payload."

  function FlatKeys(names: set<string>): (keys: set<string>)
    ensures forall key :: key in keys <==> PREFIX <= key && key[|PREFIX|..] in names
  {
    var keys := set k | k in names :: PREFIX + k;
    assert forall key :: PREFIX <= key ==> key == PREFIX + key[|PREFIX|..];
    keys
  }

  /** The payload fields in `names`, each under one flat key. */
  function Flat(payload: Fields, names: set<string>): Fields
    requires names <= payload.Keys
  {
    map key | key in FlatKeys(names) :: payload[key[|PREFIX|..]]
  }

  lemma FlatOneMore(payload: Fields, names: set<string>, k: string)
    requires names <= payload.Keys && k in payload
    ensures Flat(payload, names + {k}) == Flat(payload, names)[PREFIX + k := payload[k]]
  {
    assert (PREFIX + k)[|PREFIX|..] == k;
    forall key ensures key in FlatKeys(names + {k}) <==> key in FlatKeys(names) || key == PREFIX + k {
      if PREFIX <= key { assert key == PREFIX + key[|PREFIX|..]; }
    }
  }

  lemma UpdateRight(a: Fields, b: Fields, k: string, v: Json)
    ensures (a + b)[k := v] == a + b[k := v]
  {
  }

  function EventObject(event: Event): Json {
    Object(map["id" := Leaf(event.id), "type" := Leaf(event.kind), "actor_id" := Leaf(event.actor),
               "subject_id" := Leaf(event.subject), "payload" := Object(event.payload)])
  }

  function EventFields(event: Event): Fields {
    map["event.id" := Leaf(event.id), "event.type" := Leaf(event.kind), "event.version" := Leaf(event.version),
        "event.actor_id" := Leaf(event.actor), "event.subject_id" := Leaf(event.subject)]
  }

  function Scope(context: Fields, event: Event): Fields {
    (context + EventFields(event) + Flat(event.payload, event.payload.Keys))["event" := EventObject(event)]
  }

  method BuildScope(context: Fields, event: Event) returns (values: Fields)
    ensures values == Scope(context, event)
  {
    values := context;
    values := values["event.id" := Leaf(event.id)]["event.type" := Leaf(event.kind)];
    values := values["event.version" := Leaf(event.version)]["event.actor_id" := Leaf(event.actor)];
    values := values["event.subject_id" := Leaf(event.subject)];
    assert values == context + EventFields(event);
    values := AddPayload(values, event.payload);
    values := values["event" := EventObject(event)];
  }

  /** The scope once every payload field except those in `left` is in it. */
  ghost function Added(start: Fields, payload: Fields, left: set<string>): Fields {
    start + Flat(payload, payload.Keys - left)
  }

  lemma AddedOne(start: Fields, payload: Fields, left: set<string>, k: string)
    requires left <= payload.Keys && k in left
    ensures Added(start, payload, left - {k}) == Added(start, payload, left)[PREFIX + k := payload[k]]
  {
    hide Flat;
    FlatOneMore(payload, payload.Keys - left, k);
    assert payload.Keys - (left - {k}) == payload.Keys - left + {k};
    UpdateRight(start, Flat(payload, payload.Keys - left), PREFIX + k, payload[k]);
  }

  lemma AddedEnds(start: Fields, payload: Fields)
    ensures Added(start, payload, payload.Keys) == start
    ensures Added(start, payload, {}) == start + Flat(payload, payload.Keys)
  {
    assert payload.Keys - payload.Keys == {} && Flat(payload, {}) == map[];
    assert payload.Keys - {} == payload.Keys;
  }

  method AddPayload(start: Fields, payload: Fields) returns (values: Fields)
    ensures values == start + Flat(payload, payload.Keys)
  {
    hide Added, Flat;
    values := start;
    var left := payload.Keys;
    AddedEnds(start, payload);
    while left != {}
      invariant left <= payload.Keys && values == Added(start, payload, left)
      decreases |left|
    {
      var k :| k in left;
      AddedOne(start, payload, left, k);
      values := values[PREFIX + k := payload[k]];
      left := left - {k};
    }
  }

  // ---- Flat and nested lookup agree ------------------------------------------------------

  /** Actor state comes under prefixes such as `user.` and `streak.`; no key of it begins with `event`. */
  ghost predicate ContextOnly(context: Fields) { forall key :: key in context ==> !("event" <= key) }

  /** What the scope holds at and below `event`. */
  lemma ScopeHolds(context: Fields, event: Event, word: string)
    requires ContextOnly(context)
    ensures var scope := Scope(context, event);
            && "event" in scope && scope["event"] == EventObject(event)
            && "event.payload" !in scope
            && (PREFIX + word in scope <==> word in event.payload)
            && (word in event.payload ==> scope[PREFIX + word] == event.payload[word])
  {
    var key := PREFIX + word;
    assert key[|PREFIX|..] == word && key[0] == 'e' && key[6] == 'p';
    assert "event" <= key && "event" <= "event.payload";
    hide EventFields, EventObject;
    NotEventField(event, key);
    NotEventField(event, "event.payload");
    assert |key| > |"event"|;
  }

  lemma NotEventField(event: Event, key: string)
    requires |key| > 6 && key[6] == 'p'
    ensures key !in EventFields(event)
  {
    assert "event.id"[6] == 'i' && "event.type"[6] == 't' && "event.version"[6] == 'v';
    assert "event.actor_id"[6] == 'a' && "event.subject_id"[6] == 's';
  }

  lemma EventFieldsAre(event: Event)
    ensures var fields := EventFields(event);
            && fields.Keys == {"event.id", "event.type", "event.version", "event.actor_id", "event.subject_id"}
            && fields["event.id"] == Leaf(event.id) && fields["event.type"] == Leaf(event.kind)
            && fields["event.version"] == Leaf(event.version)
            && fields["event.actor_id"] == Leaf(event.actor) && fields["event.subject_id"] == Leaf(event.subject)
  {
    assert |"event.id"| == 8 && |"event.type"| == 10 && |"event.version"| == 13;
    assert |"event.actor_id"| == 14 && |"event.subject_id"| == 16;
  }

  lemma EventObjectIs(event: Event)
    ensures EventObject(event).Object?
    ensures var fields := EventObject(event).fields;
            && fields.Keys == {"id", "type", "actor_id", "subject_id", "payload"}
            && fields["id"] == Leaf(event.id) && fields["type"] == Leaf(event.kind)
            && fields["actor_id"] == Leaf(event.actor) && fields["subject_id"] == Leaf(event.subject)
            && fields["payload"] == Object(event.payload)
  {
    assert |"id"| == 2 && |"type"| == 4 && |"actor_id"| == 8 && |"subject_id"| == 10 && |"payload"| == 7;
  }

  /** A key that is no payload key keeps the event field, or else the actor state, stored under it. */
  lemma ScopeElse(context: Fields, event: Event, key: string)
    requires key != "" && key != "event" && !(PREFIX <= key)
    ensures var scope, fields := Scope(context, event), EventFields(event);
            && (key in fields ==> Resolve(scope, key) == Some(fields[key]))
            && (key !in fields && key in context ==> Resolve(scope, key) == Some(context[key]))
  {
    hide Split, LongestPrefix, EventFields, EventObject, Flat;
    FlatPrefixed(event.payload, key);
  }

  lemma FlatPrefixed(payload: Fields, key: string)
    requires !(PREFIX <= key)
    ensures key !in Flat(payload, payload.Keys)
  {
  }

  lemma FieldPrefixed(key: string)
    requires |key| > 6 && key[6] != 'p'
    ensures !(PREFIX <= key) && key != "event"
  {
    assert PREFIX[6] == 'p';
  }

  /** Where the fields of an event are found, whatever the payload and the actor state hold. */
  lemma EventPaths(context: Fields, event: Event)
    ensures var scope := Scope(context, event);
            && Resolve(scope, "event.id") == Some(Leaf(event.id))
            && Resolve(scope, "event.type") == Some(Leaf(event.kind))
            && Resolve(scope, "event.version") == Some(Leaf(event.version))
            && Resolve(scope, "event.actor_id") == Some(Leaf(event.actor))
            && Resolve(scope, "event.subject_id") == Some(Leaf(event.subject))
  {
    hide Scope, Resolve, EventFields, Split;
    EventFieldsAre(event);
    forall key | key in EventFields(event)
      ensures Resolve(Scope(context, event), key) == Some(EventFields(event)[key])
    {
      assert "event.id"[6] == 'i' && "event.type"[6] == 't' && "event.version"[6] == 'v';
      assert "event.actor_id"[6] == 'a' && "event.subject_id"[6] == 's';
      FieldPrefixed(key);
      ScopeElse(context, event, key);
    }
  }

  /** What `event` itself is. */
  lemma EventIs(context: Fields, event: Event)
    ensures Resolve(Scope(context, event), "event") == Some(EventObject(event))
  {
    hide Split, LongestPrefix, EventFields, EventObject, Flat;
  }

  /** Actor state keeps its values. */
  lemma ContextStays(context: Fields, event: Event, key: string)
    requires ContextOnly(context) && key in context && key != ""
    ensures Resolve(Scope(context, event), key) == Some(context[key])
  {
    hide Scope, Resolve, EventFields;
    EventFieldsAre(event);
    assert "event" <= "event.id" && "event" <= "event.type" && "event" <= "event.version";
    assert "event" <= "event.actor_id" && "event" <= "event.subject_id" && "event" <= PREFIX;
    BeginsAlike("event", PREFIX, key);
    ScopeElse(context, event, key);
  }

  lemma BeginsAlike(a: string, b: string, c: string)
    requires a <= b
    ensures b <= c ==> a <= c
  {
  }

  /** The empty path leads nowhere, nor does a single word that is no key. */
  lemma ShortPaths(scope: Fields, word: string)
    requires DotFree(word)
    ensures Resolve(scope, word) == if word != "" && word in scope then Some(scope[word]) else None
  {
    SplitWord(word);
  }

  lemma JoinPayload(rest: seq<string>)
    requires rest != []
    ensures Join(PAYLOAD + rest) == PREFIX + Join(rest)
  {
    var all := PAYLOAD + rest;
    assert all[1..] == ["payload"] + rest && all[1..][1..] == rest;
    assert Join(all) == "event" + "." + Join(all[1..]);
    assert Join(all[1..]) == "payload" + "." + Join(rest);
  }

  lemma {:induction false} WalkSplit(fields: Fields, a: seq<string>, b: seq<string>)
    requires a != [] && b != []
    ensures var first := Walk(fields, a);
            Walk(fields, a + b) == if first.Some? && first.value.Object? then Walk(first.value.fields, b) else None
    decreases |a|
  {
    assert (a + b)[1..] == a[1..] + b;
    if |a| > 1 && a[0] in fields && fields[a[0]].Object? {
      WalkSplit(fields[a[0]].fields, a[1..], b);
    } else if |a| == 1 {
      assert a[1..] + b == b;
    }
  }

  /** Flat keys first, longest first, then the nested walk: what lookup below `event.payload` comes to. */
  function Shadowed(payload: Fields, rest: seq<string>, take: nat): Option<Json>
    requires take < |rest|
  {
    if take == 0 then Walk(payload, rest)
    else
      var found := Under(payload, rest, take);
      if found.Some? then found else Shadowed(payload, rest, take - 1)
  }

  lemma UnderPayload(context: Fields, event: Event, rest: seq<string>, take: nat)
    requires ContextOnly(context) && 0 < take < |rest|
    ensures Under(Scope(context, event), PAYLOAD + rest, take + 2) == Under(event.payload, rest, take)
  {
    hide Scope;
    var all := PAYLOAD + rest;
    assert all[..take + 2] == PAYLOAD + rest[..take] && all[take + 2..] == rest[take..];
    JoinPayload(rest[..take]);
    ScopeHolds(context, event, Join(rest[..take]));
  }

  lemma UnderEvent(context: Fields, event: Event, rest: seq<string>)
    requires ContextOnly(context) && rest != []
    ensures Under(Scope(context, event), PAYLOAD + rest, 2) == None
    ensures Under(Scope(context, event), PAYLOAD + rest, 1) == Walk(event.payload, rest)
  {
    hide Scope;
    var all := PAYLOAD + rest;
    ScopeHolds(context, event, "");
    assert all[..2] == PAYLOAD && Join(PAYLOAD) == "event.payload" by { assert PAYLOAD[1..] == ["payload"]; }
    assert all[..1] == EVENT && Join(EVENT) == "event";
    assert all[1..] == ["payload"] + rest && all[1..][1..] == rest;
  }

  lemma {:induction false} LookupShadowed(context: Fields, event: Event, rest: seq<string>, take: nat)
    requires ContextOnly(context) && take < |rest|
    ensures LongestPrefix(Scope(context, event), PAYLOAD + rest, take + 2) == Shadowed(event.payload, rest, take)
  {
    hide Scope, Under;
    if take == 0 {
      UnderEvent(context, event, rest);
      assert LongestPrefix(Scope(context, event), PAYLOAD + rest, 0) == None;
    } else {
      UnderPayload(context, event, rest, take);
      LookupShadowed(context, event, rest, take - 1);
    }
  }

  lemma PayloadDotFree(rest: seq<string>)
    requires AllDotFree(rest)
    ensures AllDotFree(PAYLOAD + rest)
  {
  }

  /** Exactly what a path below the payload resolves to, dotted payload keys included. */
  lemma ResolveBelowPayload(context: Fields, event: Event, rest: seq<string>)
    requires ContextOnly(context) && rest != [] && AllDotFree(rest)
    ensures Resolve(Scope(context, event), Join(PAYLOAD + rest))
            == if Join(rest) in event.payload then Some(event.payload[Join(rest)])
               else Shadowed(event.payload, rest, |rest| - 1)
  {
    hide Scope, LongestPrefix, Shadowed, Split, Join, AllDotFree, Resolve;
    var all := PAYLOAD + rest;
    JoinPayload(rest);
    PayloadDotFree(rest);
    ScopeHolds(context, event, Join(rest));
    ResolveSteps(Scope(context, event), all);
    LookupShadowed(context, event, rest, |rest| - 1);
  }

  lemma ResolveSteps(scope: Fields, segments: seq<string>)
    requires |segments| >= 2 && AllDotFree(segments) && Join(segments) != ""
    ensures Resolve(scope, Join(segments))
            == if Join(segments) in scope then Some(scope[Join(segments)])
               else LongestPrefix(scope, segments, |segments| - 1)
  {
    hide LongestPrefix, Split, Join, AllDotFree;
    SplitJoin(segments);
  }

  /** Every payload key, read as a path, leads to its own value. */
  ghost predicate Coherent(payload: Fields) {
    forall key :: key in payload ==> Walk(payload, Split(key)) == Some(payload[key])
  }

  lemma {:induction false} CoherentShadow(payload: Fields, rest: seq<string>, take: nat)
    requires Coherent(payload) && AllDotFree(rest) && take < |rest|
    ensures Shadowed(payload, rest, take) == Walk(payload, rest)
  {
    hide Walk;
    if take == 0 {
    } else {
      var first := rest[..take];
      SplitJoin(first);
      WalkSplit(payload, first, rest[take..]);
      assert first + rest[take..] == rest;
      CoherentShadow(payload, rest, take - 1);
    }
  }

  ghost predicate LookupIsWalk(context: Fields, event: Event) {
    forall rest :: rest != [] && AllDotFree(rest) ==>
      Resolve(Scope(context, event), Join(PAYLOAD + rest)) == Walk(event.payload, rest)
  }

  /** Lookup below `event.payload` is the plain nested walk for every path exactly when the payload is coherent. */
  lemma FlatAgreesWithNested(context: Fields, event: Event)
    requires ContextOnly(context)
    ensures LookupIsWalk(context, event) <==> Coherent(event.payload)
  {
    hide Scope, Walk, Resolve, Shadowed, AllDotFree;
    if Coherent(event.payload) {
      forall rest: seq<string> | rest != [] && AllDotFree(rest)
        ensures Resolve(Scope(context, event), Join(PAYLOAD + rest)) == Walk(event.payload, rest)
      {
        ResolveBelowPayload(context, event, rest);
        SplitJoin(rest);
        CoherentShadow(event.payload, rest, |rest| - 1);
      }
    }
    if LookupIsWalk(context, event) {
      forall key | key in event.payload ensures Walk(event.payload, Split(key)) == Some(event.payload[key]) {
        JoinSplit(key);
        ResolveBelowPayload(context, event, Split(key));
      }
    }
  }

  /** Keys without dots make any payload coherent. */
  lemma DotFreeCoherent(payload: Fields)
    requires forall key :: key in payload ==> DotFree(key)
    ensures Coherent(payload)
  {
    forall key | key in payload ensures Walk(payload, Split(key)) == Some(payload[key]) { SplitWord(key); }
  }

  /** A dotted key can hide a nested value. */
  lemma DottedKeyHides(context: Fields)
    requires ContextOnly(context)
    ensures var payload := map["a.b" := Leaf("flat"), "a" := Object(map["b" := Leaf("nested")])];
            var event := Event("e", "k.t", "1", "u", "u", payload);
            Resolve(Scope(context, event), "event.payload.a.b") == Some(Leaf("flat"))
            && Walk(payload, ["a", "b"]) == Some(Leaf("nested"))
  {
    var payload := map["a.b" := Leaf("flat"), "a" := Object(map["b" := Leaf("nested")])];
    var event := Event("e", "k.t", "1", "u", "u", payload);
    assert ["a", "b"][1..] == ["b"] && Join(["a", "b"]) == "a.b";
    JoinPayload(["a", "b"]);
    assert PREFIX + "a.b" == "event.payload.a.b";
    hide Resolve, Scope;
    ResolveBelowPayload(context, event, ["a", "b"]);
  }
}
