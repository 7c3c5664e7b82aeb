/** The dedup identity every command carries. */
module CommandKeys {
  import opened Decimals

  function KeyFor(source: string, event: string, index: nat): string {
    source + ":" + event + ":" + Decimal(index)
  }

  /** The last colon splits off the index, so what stands before it is the event, colons and all. */
  lemma LastColon(a: string, b: string, m: string, n: string)
    requires a + ":" + m == b + ":" + n && ':' !in m && ':' !in n
    ensures a == b && m == n
  {
    var x, y := a + ":" + m, b + ":" + n;
    assert x[|a|] == ':' && y[|b|] == ':';
    assert forall i :: |a| < i < |x| ==> x[i] == m[i - |a| - 1];
    assert forall i :: |b| < i < |y| ==> y[i] == n[i - |b| - 1];
    assert x[..|a|] == a && y[..|b|] == b && x[|a| + 1..] == m && y[|b| + 1..] == n;
  }

  /** With the source beside it, as in the ledger's unique index, the key determines event and index. */
  lemma KeyInjective(source: string, event: string, index: nat, event': string, index': nat)
    requires KeyFor(source, event, index) == KeyFor(source, event', index')
    ensures event == event' && index == index'
  {
    var a, b := source + ":" + event, source + ":" + event';
    LastColon(a, b, Decimal(index), Decimal(index'));
    assert a[|source| + 1..] == event && b[|source| + 1..] == event';
    NumberDecimal(index);
    NumberDecimal(index');
  }

  /** Alone it does not: a colon in an id moves the boundary between source and event. */
  lemma KeyAloneAmbiguous(a: string, b: string, c: string, index: nat)
    ensures KeyFor(a, b + ":" + c, index) == KeyFor(a + ":" + b, c, index)
  {
    assert KeyFor(a, b + ":" + c, index) == a + ":" + b + ":" + c + ":" + Decimal(index);
  }

  // ---- Who issues commands ---------------------------------------------------------------

  datatype Origin = Rule(id: string) | Workflow(id: string) | Challenge(id: string) | Achievement(id: string)

  /** Achievement rewards go out under a challenge whose id is built from the achievement's. */
  function SourceOf(o: Origin): string {
    match o
    case Rule(id) => "rule:" + id
    case Workflow(id) => "workflow:" + id
    case Challenge(id) => "challenge:" + id
    case Achievement(id) => "challenge:achievement:" + id
  }

  function Family(o: Origin): string {
    match o
    case Rule(_) => "rule:"
    case Workflow(_) => "workflow:"
    case _ => "challenge:"
  }

  function Name(o: Origin): string { if o.Achievement? then "achievement:" + o.id else o.id }

  lemma Stripped(o: Origin)
    ensures SourceOf(o) == Family(o) + Name(o)
    ensures SourceOf(o)[0] == Family(o)[0] && SourceOf(o)[|Family(o)|..] == Name(o)
  {
  }

  /** Two origins share a source exactly when they are the same, or a challenge is named like the achievement. */
  lemma SourceCollision(o: Origin, o': Origin)
    ensures SourceOf(o) == SourceOf(o') <==>
            || o == o'
            || (o.Challenge? && o'.Achievement? && o.id == "achievement:" + o'.id)
            || (o.Achievement? && o'.Challenge? && o'.id == "achievement:" + o.id)
  {
    Stripped(o);
    Stripped(o');
    hide SourceOf;
    assert SourceOf(o) == SourceOf(o') <==> Family(o) == Family(o') && Name(o) == Name(o');
    if o.Achievement? { assert Name(o)[|"achievement:"|..] == o.id; }
    if o'.Achievement? { assert Name(o')[|"achievement:"|..] == o'.id; }
  }
}
