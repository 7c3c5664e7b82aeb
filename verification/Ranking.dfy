/** Competition ranking with ties, and the SQL rank that serves the same boards. */
module Ranking {
  datatype Direction = Highest | Lowest

  datatype TieBreaker = EarliestAchievedThenUserId | LatestAchievedThenUserId | UserIdOnly

  datatype Spec = Spec(direction: Direction, tieBreaker: TieBreaker)

  datatype Row = Row(user: string, score: int, achievedAt: int)

  datatype Ranked = Ranked(rank: nat, user: string, score: int, achievedAt: int, tiedWith: nat)

  // ---- Orders ----------------------------------------------------------------------------

  predicate StrLe(a: string, b: string) {
    a == "" || (b != "" && (a[0] < b[0] || (a[0] == b[0] && StrLe(a[1..], b[1..]))))
  }

  lemma {:induction false} StrOrder(a: string, b: string, c: string)
    ensures StrLe(a, b) || StrLe(b, a)
    ensures StrLe(a, b) && StrLe(b, a) ==> a == b
    ensures StrLe(a, b) && StrLe(b, c) ==> StrLe(a, c)
    decreases |a| + |b| + |c|
  {
    if a != "" && b != "" {
      StrOrder(a[1..], b[1..], if c == "" then "" else c[1..]);
      assert a == [a[0]] + a[1..] && b == [b[0]] + b[1..];
    }
  }

  predicate SmallerUser(x: Row, e: Row) { StrLe(x.user, e.user) && x.user != e.user }

  /** The part of the sort key that decides ties: direction-adjusted score, then time. */
  function ScoreKey(e: Row, spec: Spec): int { if spec.direction.Highest? then -e.score else e.score }

  function TimeKey(e: Row, spec: Spec): int {
    match spec.tieBreaker
    case EarliestAchievedThenUserId => e.achievedAt
    case LatestAchievedThenUserId => -e.achievedAt
    case UserIdOnly => 0
  }

  predicate Before(a: Row, b: Row, spec: Spec) {
    ScoreKey(a, spec) < ScoreKey(b, spec)
    || (ScoreKey(a, spec) == ScoreKey(b, spec) && TimeKey(a, spec) < TimeKey(b, spec))
  }

  predicate Ties(a: Row, b: Row, spec: Spec) {
    ScoreKey(a, spec) == ScoreKey(b, spec) && TimeKey(a, spec) == TimeKey(b, spec)
  }

  predicate KeyLe(a: Row, b: Row, spec: Spec) {
    Before(a, b, spec) || (Ties(a, b, spec) && StrLe(a.user, b.user))
  }

  lemma KeyOrder(a: Row, b: Row, c: Row, spec: Spec)
    ensures KeyLe(a, b, spec) || KeyLe(b, a, spec)
    ensures KeyLe(a, b, spec) && KeyLe(b, a, spec) ==> a.user == b.user
    ensures KeyLe(a, b, spec) && KeyLe(b, c, spec) ==> KeyLe(a, c, spec)
  {
    StrOrder(a.user, b.user, c.user);
  }

  // ---- The stable sort -------------------------------------------------------------------

  ghost predicate Sorted(rows: seq<Row>, spec: Spec) {
    forall i, j :: 0 <= i < j < |rows| ==> KeyLe(rows[i], rows[j], spec)
  }

  /** After the rows that are not larger: equal keys keep their order. */
  function Insert(rows: seq<Row>, e: Row, spec: Spec): seq<Row> {
    if rows == [] || KeyLe(rows[|rows| - 1], e, spec) then rows + [e]
    else Insert(rows[..|rows| - 1], e, spec) + [rows[|rows| - 1]]
  }

  function Sort(rows: seq<Row>, spec: Spec): seq<Row> {
    if rows == [] then [] else Insert(Sort(rows[..|rows| - 1], spec), rows[|rows| - 1], spec)
  }

  lemma {:induction false} InsertIs(rows: seq<Row>, e: Row, spec: Spec)
    requires Sorted(rows, spec)
    ensures multiset(Insert(rows, e, spec)) == multiset(rows) + multiset{e} && Sorted(Insert(rows, e, spec), spec)
  {
    if rows == [] {
    } else {
      hide KeyLe;
      var n := |rows| - 1;
      var last := rows[n];
      assert rows == rows[..n] + [last];
      if KeyLe(last, e, spec) {
        forall i | 0 <= i < n ensures KeyLe(rows[i], e, spec) { KeyOrder(rows[i], last, e, spec); }
      } else {
        InsertIs(rows[..n], e, spec);
        var front := Insert(rows[..n], e, spec);
        forall i | 0 <= i < |front| ensures KeyLe(front[i], last, spec) {
          assert front[i] in multiset(front);
          KeyOrder(e, last, e, spec);
        }
      }
    }
  }

  lemma {:induction false} SortIs(rows: seq<Row>, spec: Spec)
    ensures multiset(Sort(rows, spec)) == multiset(rows) && |Sort(rows, spec)| == |rows|
    ensures Sorted(Sort(rows, spec), spec)
  {
    hide Sorted, KeyLe;
    if rows == [] {
      EmptySorted(spec);
    } else {
      var n := |rows| - 1;
      SortIs(rows[..n], spec);
      InsertIs(Sort(rows[..n], spec), rows[n], spec);
      assert rows == rows[..n] + [rows[n]];
      assert |multiset(Sort(rows, spec))| == |Sort(rows, spec)|;
    }
  }

  lemma EmptySorted(spec: Spec)
    ensures Sorted([], spec)
  {
  }

  // ---- Counting --------------------------------------------------------------------------

  function Count(rows: seq<Row>, p: Row -> bool): nat {
    if rows == [] then 0 else Count(rows[..|rows| - 1], p) + if p(rows[|rows| - 1]) then 1 else 0
  }

  function BeforeRow(e: Row, spec: Spec): Row -> bool { x => Before(x, e, spec) }
  function TiesRow(e: Row, spec: Spec): Row -> bool { x => Ties(x, e, spec) }

  /** How many rows are strictly better than `e`, and how many tie with it. */
  function Ahead(rows: seq<Row>, e: Row, spec: Spec): nat { Count(rows, BeforeRow(e, spec)) }
  function Tied(rows: seq<Row>, e: Row, spec: Spec): nat { Count(rows, TiesRow(e, spec)) }

  function Drop(rows: seq<Row>, i: nat): (r: seq<Row>)
    requires i < |rows|
    ensures |r| == |rows| - 1
  {
    rows[..i] + rows[i + 1..]
  }

  lemma Without(rows: seq<Row>, i: nat)
    requires i < |rows|
    ensures multiset(Drop(rows, i)) == multiset(rows) - multiset{rows[i]}
  {
    assert rows == rows[..i] + ([rows[i]] + rows[i + 1..]);
  }

  lemma {:induction false} CountWithout(rows: seq<Row>, i: nat, p: Row -> bool)
    requires i < |rows|
    ensures Count(rows, p) == Count(Drop(rows, i), p) + if p(rows[i]) then 1 else 0
  {
    var n := |rows| - 1;
    if i < n {
      CountWithout(rows[..n], i, p);
      assert Drop(rows, i)[..n - 1] == Drop(rows[..n], i) && Drop(rows, i)[n - 1] == rows[n];
    } else {
      assert Drop(rows, i) == rows[..n];
    }
  }

  lemma IndexOf(rows: seq<Row>, x: Row) returns (i: nat)
    requires x in multiset(rows)
    ensures i < |rows| && rows[i] == x
  {
    i :| i < |rows| && rows[i] == x;
  }

  /** Counting does not see the order. */
  lemma {:induction false} CountPermuted(a: seq<Row>, b: seq<Row>, p: Row -> bool)
    requires multiset(a) == multiset(b)
    ensures Count(a, p) == Count(b, p)
    decreases |a|
  {
    hide Count, Drop;
    if a == [] {
      assert |multiset(b)| == |b|;
    } else {
      assert a[0] in multiset(a);
      var j := IndexOf(b, a[0]);
      Without(a, 0);
      Without(b, j);
      CountWithout(a, 0, p);
      CountWithout(b, j, p);
      CountPermuted(Drop(a, 0), Drop(b, j), p);
    }
  }

  lemma {:induction false} CountRange(rows: seq<Row>, p: Row -> bool, lo: nat, hi: nat)
    requires lo <= hi <= |rows|
    requires forall i :: 0 <= i < |rows| ==> (p(rows[i]) <==> lo <= i < hi)
    ensures Count(rows, p) == hi - lo
    decreases |rows|
  {
    if rows == [] {
    } else {
      var n := |rows| - 1;
      CountRange(rows[..n], p, if lo < n then lo else n, if hi < n then hi else n);
    }
  }

  // ---- Groups of ties in the sorted list -------------------------------------------------

  /** Where the run of ties that reaches back from `j` begins. */
  function GroupStart(rows: seq<Row>, j: nat, spec: Spec): (g: nat)
    requires j < |rows|
    ensures g <= j
  {
    if j > 0 && Ties(rows[j - 1], rows[j], spec) then GroupStart(rows, j - 1, spec) else j
  }

  function GroupEnd(rows: seq<Row>, j: nat, spec: Spec): (h: nat)
    requires j < |rows|
    ensures j < h <= |rows|
    decreases |rows| - j
  {
    if j + 1 < |rows| && Ties(rows[j], rows[j + 1], spec) then GroupEnd(rows, j + 1, spec) else j + 1
  }

  lemma {:induction false} GroupStartIs(rows: seq<Row>, j: nat, spec: Spec)
    requires Sorted(rows, spec) && j < |rows|
    ensures forall i :: 0 <= i < j ==>
              (Ties(rows[i], rows[j], spec) <==> GroupStart(rows, j, spec) <= i)
              && (Before(rows[i], rows[j], spec) <==> i < GroupStart(rows, j, spec))
  {
    if j == 0 {
    } else {
      GroupStartIs(rows, j - 1, spec);
    }
    assert forall i :: 0 <= i < j ==> KeyLe(rows[i], rows[j], spec);
    if j > 0 && !Ties(rows[j - 1], rows[j], spec) {
      assert Before(rows[j - 1], rows[j], spec);
      assert forall i :: 0 <= i < j - 1 ==> KeyLe(rows[i], rows[j - 1], spec);
    }
  }

  lemma {:induction false} GroupEndIs(rows: seq<Row>, j: nat, spec: Spec)
    requires Sorted(rows, spec) && j < |rows|
    ensures forall i :: j <= i < |rows| ==>
              (Ties(rows[i], rows[j], spec) <==> i < GroupEnd(rows, j, spec)) && !Before(rows[i], rows[j], spec)
    decreases |rows| - j
  {
    if j + 1 >= |rows| {
    } else {
      GroupEndIs(rows, j + 1, spec);
    }
    assert forall i :: j < i < |rows| ==> KeyLe(rows[j], rows[i], spec);
  }

  function RankedRow(rows: seq<Row>, j: nat, spec: Spec, tiedWith: nat): Ranked
    requires j < |rows|
  {
    Ranked(GroupStart(rows, j, spec) + 1, rows[j].user, rows[j].score, rows[j].achievedAt, tiedWith)
  }

  function RankSorted(rows: seq<Row>, spec: Spec): seq<Ranked> {
    seq(|rows|, j requires 0 <= j < |rows| =>
      RankedRow(rows, j, spec, GroupEnd(rows, j, spec) - GroupStart(rows, j, spec)))
  }

  function Rank(entries: seq<Row>, spec: Spec): seq<Ranked> { RankSorted(Sort(entries, spec), spec) }

  /** First pass: walk the sorted rows, opening a new rank at every row that does not tie with the one before. */
  method AssignRanks(sorted: seq<Row>, spec: Spec) returns (out: seq<Ranked>)
    ensures |out| == |sorted| && forall j :: 0 <= j < |out| ==> out[j] == RankedRow(sorted, j, spec, 0)
  {
    out := [];
    var currentRank := 0;
    for i := 0 to |sorted|
      invariant |out| == i && forall j :: 0 <= j < i ==> out[j] == RankedRow(sorted, j, spec, 0)
      invariant i > 0 ==> currentRank == GroupStart(sorted, i - 1, spec) + 1
    {
      var e := sorted[i];
      if !(i > 0 && Ties(sorted[i - 1], e, spec)) { currentRank := |out| + 1; }
      out := out + [Ranked(currentRank, e.user, e.score, e.achievedAt, 0)];
    }
  }

  /** The rows from `i` on that carry the rank at `i`, counted. */
  method RunLength(rows: seq<Ranked>, i: nat) returns (j: nat, count: nat)
    requires i < |rows|
    ensures i < j <= |rows| && count == j - i
    ensures forall k :: i <= k < j ==> rows[k].rank == rows[i].rank
    ensures j < |rows| ==> rows[j].rank != rows[i].rank
  {
    j, count := i, 0;
    while j < |rows| && rows[j].rank == rows[i].rank
      invariant i <= j <= |rows| && count == j - i
      invariant forall k :: i <= k < j ==> rows[k].rank == rows[i].rank
    {
      count, j := count + 1, j + 1;
    }
  }

  method WriteTies(rows: seq<Ranked>, i: nat, j: nat, count: nat) returns (out: seq<Ranked>)
    requires i <= j <= |rows|
    ensures |out| == |rows|
    ensures forall k :: 0 <= k < |rows| ==> out[k] == if i <= k < j then rows[k].(tiedWith := count) else rows[k]
  {
    out := rows;
    for k := i to j
      invariant |out| == |rows|
      invariant forall x :: 0 <= x < |rows| ==> out[x] == if i <= x < k then rows[x].(tiedWith := count) else rows[x]
    {
      out := out[k := out[k].(tiedWith := count)];
    }
  }

  ghost predicate Filled(out: seq<Ranked>, sorted: seq<Row>, i: nat, spec: Spec) {
    && i <= |out| == |sorted|
    && (i < |out| ==> GroupStart(sorted, i, spec) == i)
    && (forall j :: 0 <= j < i ==> out[j] == RankSorted(sorted, spec)[j])
    && (forall j :: i <= j < |out| ==> out[j] == RankedRow(sorted, j, spec, 0))
  }

  lemma FillRun(out: seq<Ranked>, next: seq<Ranked>, sorted: seq<Row>, i: nat, j: nat, spec: Spec)
    requires Filled(out, sorted, i, spec) && i < j <= |out| == |next|
    requires forall k :: i <= k < j ==> out[k].rank == out[i].rank
    requires j < |out| ==> out[j].rank != out[i].rank
    requires forall k :: 0 <= k < |out| ==> next[k] == if i <= k < j then out[k].(tiedWith := j - i) else out[k]
    ensures Filled(next, sorted, j, spec)
  {
    hide GroupStart, GroupEnd;
    forall k | i <= k < j ensures GroupStart(sorted, k, spec) == i {
      assert out[k] == RankedRow(sorted, k, spec, 0);
    }
    if j < |out| { assert out[j] == RankedRow(sorted, j, spec, 0); }
    RunEnds(sorted, i, j, spec);
  }

  /** Second pass: write each run's length into its rows. */
  method FillTies(ranked: seq<Ranked>, ghost sorted: seq<Row>, spec: Spec) returns (out: seq<Ranked>)
    requires |ranked| == |sorted|
    requires forall j :: 0 <= j < |sorted| ==> ranked[j] == RankedRow(sorted, j, spec, 0)
    ensures out == RankSorted(sorted, spec)
  {
    out := ranked;
    var i := 0;
    while i < |out|
      invariant Filled(out, sorted, i, spec)
    {
      hide Filled;
      var j, count := RunLength(out, i);
      var next := WriteTies(out, i, j, count);
      FillRun(out, next, sorted, i, j, spec);
      out, i := next, j;
    }
  }

  /** A maximal stretch with one start is one run, and the next stretch starts where it ends. */
  lemma RunEnds(rows: seq<Row>, i: nat, j: nat, spec: Spec)
    requires i < j <= |rows|
    requires forall k :: i <= k < j ==> GroupStart(rows, k, spec) == i
    requires j < |rows| ==> GroupStart(rows, j, spec) != i
    ensures forall k :: i <= k < j ==> GroupEnd(rows, k, spec) == j
    ensures j < |rows| ==> GroupStart(rows, j, spec) == j
  {
    var k := j - 1;
    assert GroupStart(rows, k, spec) == i;
    assert GroupEnd(rows, k, spec) == j;
    while k > i
      invariant i <= k < j && forall x :: k <= x < j ==> GroupEnd(rows, x, spec) == j
    {
      assert GroupStart(rows, k, spec) == i;
      k := k - 1;
      assert GroupEnd(rows, k, spec) == j;
    }
  }

  method RankEntries(entries: seq<Row>, spec: Spec) returns (out: seq<Ranked>)
    ensures out == Rank(entries, spec)
  {
    var sorted := Sort(entries, spec);
    var ranked := AssignRanks(sorted, spec);
    out := FillTies(ranked, sorted, spec);
  }

  // ---- What ranking means ----------------------------------------------------------------

  /** The sorted row at each position is ranked by counting over the entries as they were given. */
  lemma RankCounts(entries: seq<Row>, spec: Spec)
    ensures var sorted, out := Sort(entries, spec), Rank(entries, spec);
            && |out| == |entries| == |sorted| && multiset(sorted) == multiset(entries)
            && forall j :: 0 <= j < |out| ==>
                 out[j] == Ranked(1 + Ahead(entries, sorted[j], spec), sorted[j].user, sorted[j].score,
                                  sorted[j].achievedAt, Tied(entries, sorted[j], spec))
  {
    hide Sorted, Before, Ties, GroupStart, GroupEnd, Sort;
    SortIs(entries, spec);
    var sorted := Sort(entries, spec);
    forall j | 0 <= j < |sorted|
      ensures GroupStart(sorted, j, spec) == Ahead(entries, sorted[j], spec)
      ensures GroupEnd(sorted, j, spec) - GroupStart(sorted, j, spec) == Tied(entries, sorted[j], spec)
    {
      GroupCounts(sorted, j, spec);
      CountPermuted(sorted, entries, BeforeRow(sorted[j], spec));
      CountPermuted(sorted, entries, TiesRow(sorted[j], spec));
    }
  }

  lemma GroupCounts(rows: seq<Row>, j: nat, spec: Spec)
    requires Sorted(rows, spec) && j < |rows|
    ensures Ahead(rows, rows[j], spec) == GroupStart(rows, j, spec)
    ensures Tied(rows, rows[j], spec) == GroupEnd(rows, j, spec) - GroupStart(rows, j, spec)
  {
    hide Sorted, Before, Ties, GroupStart, GroupEnd;
    GroupStartIs(rows, j, spec);
    GroupEndIs(rows, j, spec);
    CountRange(rows, BeforeRow(rows[j], spec), 0, GroupStart(rows, j, spec));
    CountRange(rows, TiesRow(rows[j], spec), GroupStart(rows, j, spec), GroupEnd(rows, j, spec));
  }

  ghost predicate DistinctUsers(rows: seq<Row>) {
    forall i, j :: 0 <= i < j < |rows| ==> rows[i].user != rows[j].user
  }

  lemma UserDeterminesRow(rows: seq<Row>, a: Row, b: Row)
    requires DistinctUsers(rows) && a in rows && b in rows && a.user == b.user
    ensures a == b
  {
  }

  /** Two sorted arrangements of rows with distinct users are the same. */
  lemma {:induction false} SortedUnique(a: seq<Row>, b: seq<Row>, users: seq<Row>, spec: Spec)
    requires Sorted(a, spec) && Sorted(b, spec) && multiset(a) == multiset(b) && DistinctUsers(users)
    requires forall x :: x in multiset(a) ==> x in users
    ensures a == b
    decreases |a|
  {
    hide Sorted, DistinctUsers, KeyLe;
    assert |multiset(a)| == |a| == |multiset(b)| == |b|;
    if a == [] {
    } else {
      SameHead(a, b, users, spec);
      TailOf(a, spec);
      TailOf(b, spec);
      SortedUnique(a[1..], b[1..], users, spec);
      assert a == [a[0]] + a[1..] && b == [b[0]] + b[1..];
    }
  }

  lemma SameHead(a: seq<Row>, b: seq<Row>, users: seq<Row>, spec: Spec)
    requires Sorted(a, spec) && Sorted(b, spec) && multiset(a) == multiset(b) && DistinctUsers(users)
    requires forall x :: x in multiset(a) ==> x in users
    requires a != [] && b != []
    ensures a[0] == b[0]
  {
    hide Sorted, DistinctUsers, KeyLe;
    assert a[0] in multiset(b) && b[0] in multiset(a);
    FirstIsLeast(a, b[0], spec);
    FirstIsLeast(b, a[0], spec);
    KeyOrder(a[0], b[0], a[0], spec);
    UserDeterminesRow(users, a[0], b[0]);
  }

  lemma TailOf(rows: seq<Row>, spec: Spec)
    requires Sorted(rows, spec) && rows != []
    ensures Sorted(rows[1..], spec) && multiset(rows[1..]) == multiset(rows) - multiset{rows[0]}
  {
    assert rows == [rows[0]] + rows[1..];
  }

  lemma FirstIsLeast(rows: seq<Row>, x: Row, spec: Spec)
    requires Sorted(rows, spec) && x in multiset(rows)
    ensures KeyLe(rows[0], x, spec)
  {
    KeyOrder(x, x, x, spec);
  }

  /** With one entry a user, the board does not depend on the order entries come in. */
  lemma RankIgnoresOrder(entries: seq<Row>, shuffled: seq<Row>, spec: Spec)
    requires DistinctUsers(entries) && multiset(entries) == multiset(shuffled)
    ensures Rank(entries, spec) == Rank(shuffled, spec)
  {
    hide Sorted, Sort, RankSorted, DistinctUsers;
    SortIs(entries, spec);
    SortIs(shuffled, spec);
    var a := Sort(entries, spec);
    forall x | x in multiset(a) ensures x in entries {
    }
    SortedUnique(a, Sort(shuffled, spec), entries, spec);
  }

  // ---- The SQL rank ----------------------------------------------------------------------

  /** Always the highest score first, whatever the board's direction, then earliest, then user id. */
  predicate SqlAhead(x: Row, e: Row) {
    x.score > e.score || (x.score == e.score && x.achievedAt < e.achievedAt)
    || (x.score == e.score && x.achievedAt == e.achievedAt && SmallerUser(x, e))
  }

  function SqlAheadOf(e: Row): Row -> bool { x => SqlAhead(x, e) }
  function SameScore(e: Row): Row -> bool { (x: Row) => x.score == e.score }
  function SameUser(user: string): Row -> bool { (x: Row) => x.user == user }

  function SqlRank(entries: seq<Row>, e: Row): nat { Count(entries, SqlAheadOf(e)) + 1 }
  function SqlTied(entries: seq<Row>, e: Row): nat { Count(entries, SameScore(e)) }

  const SERVED := Spec(Highest, EarliestAchievedThenUserId)

  /** Strictly ahead in the board's own order, ties broken by user id. */
  predicate OrderedAhead(x: Row, e: Row, spec: Spec) {
    Before(x, e, spec) || (Ties(x, e, spec) && SmallerUser(x, e))
  }

  function OrderedAheadOf(e: Row, spec: Spec): Row -> bool { (x: Row) => OrderedAhead(x, e, spec) }

  /** On a highest-first, earliest-first board the SQL rank is the row's position, inside its rank's run of ties. */
  lemma SqlRankIsPosition(entries: seq<Row>, j: nat)
    requires DistinctUsers(entries) && j < |entries|
    ensures var sorted, out := Sort(entries, SERVED), Rank(entries, SERVED);
            && j < |sorted| == |out| && SqlRank(entries, sorted[j]) == j + 1
            && out[j].rank <= SqlRank(entries, sorted[j]) < out[j].rank + out[j].tiedWith
  {
    hide Sort, Sorted, StrLe, Count;
    SortIs(entries, SERVED);
    PositionCounts(entries, SERVED, j);
    var e := Sort(entries, SERVED)[j];
    CountSame(entries, SqlAheadOf(e), OrderedAheadOf(e, SERVED));
  }

  /** A row's position counts the rows the board's own order puts ahead of it. */
  lemma PositionCounts(entries: seq<Row>, spec: Spec, j: nat)
    requires DistinctUsers(entries) && j < |entries|
    ensures var sorted := Sort(entries, spec);
            |sorted| == |entries| && sorted[j] in entries && Count(entries, OrderedAheadOf(sorted[j], spec)) == j
  {
    hide Sort, Sorted, StrLe, OrderedAhead;
    SortIs(entries, spec);
    var sorted := Sort(entries, spec);
    assert sorted[j] in multiset(sorted);
    SortedAheadIffEarlier(entries, sorted, spec, j);
    CountRange(sorted, OrderedAheadOf(sorted[j], spec), 0, j);
    CountPermuted(sorted, entries, OrderedAheadOf(sorted[j], spec));
  }

  lemma SortedAheadIffEarlier(entries: seq<Row>, sorted: seq<Row>, spec: Spec, j: nat)
    requires DistinctUsers(entries) && Sorted(sorted, spec) && multiset(sorted) == multiset(entries)
    requires |sorted| == |entries| && j < |sorted|
    ensures forall i :: 0 <= i < |sorted| ==> (OrderedAhead(sorted[i], sorted[j], spec) <==> i < j)
  {
    SortedUsersDistinct(entries, sorted);
    forall i | 0 <= i < |sorted| ensures OrderedAhead(sorted[i], sorted[j], spec) <==> i < j {
      hide TimeKey, ScoreKey;
      StrOrder(sorted[i].user, sorted[j].user, "");
      if i < j {
        assert KeyLe(sorted[i], sorted[j], spec);
      } else if j < i {
        assert KeyLe(sorted[j], sorted[i], spec);
      }
    }
  }

  lemma SortedUsersDistinct(entries: seq<Row>, sorted: seq<Row>)
    requires DistinctUsers(entries) && multiset(sorted) == multiset(entries)
    ensures DistinctUsers(sorted)
  {
    forall i, j | 0 <= i < j < |sorted| ensures sorted[i].user != sorted[j].user {
      if sorted[i].user == sorted[j].user {
        CountTwice(sorted, i, j, SameUser(sorted[i].user));
        CountPermuted(sorted, entries, SameUser(sorted[i].user));
        CountDistinct(entries, sorted[i].user);
        assert false;
      }
    }
  }

  lemma {:induction false} CountOnce(rows: seq<Row>, i: nat, p: Row -> bool)
    requires i < |rows| && p(rows[i])
    ensures Count(rows, p) >= 1
  {
    if i >= |rows| - 1 {
    } else {
      CountOnce(rows[..|rows| - 1], i, p);
    }
  }

  lemma {:induction false} CountTwice(rows: seq<Row>, i: nat, j: nat, p: Row -> bool)
    requires i < j < |rows| && p(rows[i]) && p(rows[j])
    ensures Count(rows, p) >= 2
  {
    if j < |rows| - 1 {
      CountTwice(rows[..|rows| - 1], i, j, p);
    } else {
      CountOnce(rows[..j], i, p);
    }
  }

  lemma {:induction false} CountDistinct(rows: seq<Row>, user: string)
    requires DistinctUsers(rows)
    ensures Count(rows, SameUser(user)) <= 1
  {
    if rows == [] {
    } else {
      var n := |rows| - 1;
      CountDistinct(rows[..n], user);
      if rows[n].user == user { CountRange(rows[..n], SameUser(user), 0, 0); }
    }
  }

  // ---- What the SQL rank is on every board -----------------------------------------------

  function AboveOf(e: Row): Row -> bool { (x: Row) => x.score > e.score }
  function BelowOf(e: Row): Row -> bool { (x: Row) => x.score < e.score }

  /** Rows the board's direction puts ahead by score. */
  function BetterOf(e: Row, spec: Spec): Row -> bool { if spec.direction.Highest? then AboveOf(e) else BelowOf(e) }

  /** Rows of the same score that the SQL order, or the board's own, puts ahead. */
  function SqlAheadAmong(e: Row): Row -> bool { (x: Row) => x.score == e.score && SqlAhead(x, e) }
  function OrderedAheadAmong(e: Row, spec: Spec): Row -> bool {
    (x: Row) => x.score == e.score && OrderedAhead(x, e, spec)
  }

  function TiesSmaller(e: Row): Row -> bool { (x: Row) => Ties(x, e, SERVED) && SmallerUser(x, e) }

  lemma {:induction false} CountEither(rows: seq<Row>, p: Row -> bool, q: Row -> bool, r: Row -> bool)
    requires forall x :: (p(x) <==> q(x) || r(x)) && !(q(x) && r(x))
    ensures Count(rows, p) == Count(rows, q) + Count(rows, r)
  {
    if rows == [] {
    } else {
      CountEither(rows[..|rows| - 1], p, q, r);
    }
  }

  lemma {:induction false} CountSame(rows: seq<Row>, p: Row -> bool, q: Row -> bool)
    requires forall x :: p(x) <==> q(x)
    ensures Count(rows, p) == Count(rows, q)
  {
    if rows == [] {
    } else {
      CountSame(rows[..|rows| - 1], p, q);
    }
  }

  lemma {:induction false} CountNone(rows: seq<Row>, p: Row -> bool)
    ensures Count(rows, p) == 0 <==> forall x :: x in rows ==> !p(x)
  {
    if rows == [] {
    } else {
      var n := |rows| - 1;
      CountNone(rows[..n], p);
      assert rows == rows[..n] + [rows[n]];
    }
  }

  /** The SQL rank counts the higher scores and, among the same scores, those its own order puts ahead. */
  lemma SqlRankCounts(entries: seq<Row>, e: Row)
    ensures SqlRank(entries, e) == 1 + Count(entries, AboveOf(e)) + Count(entries, SqlAheadAmong(e))
  {
    hide Count, StrLe;
    CountEither(entries, SqlAheadOf(e), AboveOf(e), SqlAheadAmong(e));
  }

  lemma OrderedCounts(entries: seq<Row>, e: Row, spec: Spec)
    ensures Count(entries, OrderedAheadOf(e, spec))
            == Count(entries, BetterOf(e, spec)) + Count(entries, OrderedAheadAmong(e, spec))
  {
    hide Count, StrLe, TimeKey;
    CountEither(entries, OrderedAheadOf(e, spec), BetterOf(e, spec), OrderedAheadAmong(e, spec));
  }

  /**
   * On any board, whatever its direction and tie-breaker, the SQL rank is the row's position exactly when as many
   * rows are counted ahead of it by the SQL order as by the board's own, scores and equal scores together.
   */
  lemma SqlRankOnAnyBoard(entries: seq<Row>, spec: Spec, j: nat)
    requires DistinctUsers(entries) && j < |entries|
    ensures var sorted := Sort(entries, spec);
            && |sorted| == |entries|
            && (SqlRank(entries, sorted[j]) == j + 1 <==>
                  Count(entries, AboveOf(sorted[j])) + Count(entries, SqlAheadAmong(sorted[j]))
                  == Count(entries, BetterOf(sorted[j], spec)) + Count(entries, OrderedAheadAmong(sorted[j], spec)))
  {
    hide Count, Sort, DistinctUsers, SqlRank;
    PositionCounts(entries, spec, j);
    SqlRankCounts(entries, Sort(entries, spec)[j]);
    OrderedCounts(entries, Sort(entries, spec)[j], spec);
  }

  /**
   * On a lowest-first, earliest-first board the SQL rank counts from the wrong end: it is off by the scores above
   * less the scores below, so it is the position exactly for the rows in the middle.
   */
  lemma SqlRankMirrorsLowest(entries: seq<Row>, j: nat)
    requires DistinctUsers(entries) && j < |entries|
    ensures var sorted := Sort(entries, Spec(Lowest, EarliestAchievedThenUserId));
            && |sorted| == |entries|
            && SqlRank(entries, sorted[j]) + Count(entries, BelowOf(sorted[j]))
               == j + 1 + Count(entries, AboveOf(sorted[j]))
            && (SqlRank(entries, sorted[j]) == j + 1 <==>
                  Count(entries, AboveOf(sorted[j])) == Count(entries, BelowOf(sorted[j])))
  {
    hide Count, Sort, DistinctUsers, SqlRank, StrLe;
    var spec := Spec(Lowest, EarliestAchievedThenUserId);
    PositionCounts(entries, spec, j);
    var e := Sort(entries, spec)[j];
    SqlRankCounts(entries, e);
    OrderedCounts(entries, e, spec);
    CountSame(entries, SqlAheadAmong(e), OrderedAheadAmong(e, spec));
  }

  /** The lower of two scores is first on a lowest-first board and second by SQL. */
  lemma LowestBoardReversed(a: Row, b: Row)
    requires a.score < b.score
    ensures Ahead([a, b], a, Spec(Lowest, EarliestAchievedThenUserId)) == 0 && SqlRank([a, b], a) == 2
  {
    CountOfTwo(a, b, BeforeRow(a, Spec(Lowest, EarliestAchievedThenUserId)));
    CountOfTwo(a, b, SqlAheadOf(a));
  }

  /** Rows of the same score that the SQL order puts ahead and the board does not: they reached it earlier. */
  function OnlySqlAhead(e: Row, tieBreaker: TieBreaker): Row -> bool {
    (x: Row) =>
      x.score == e.score && x.achievedAt < e.achievedAt
      && (tieBreaker.LatestAchievedThenUserId? || (tieBreaker.UserIdOnly? && !SmallerUser(x, e)))
  }

  /** Rows of the same score that the board puts ahead and the SQL order does not: they reached it later. */
  function OnlyBoardAhead(e: Row, tieBreaker: TieBreaker): Row -> bool {
    (x: Row) =>
      x.score == e.score && x.achievedAt > e.achievedAt
      && (tieBreaker.LatestAchievedThenUserId? || (tieBreaker.UserIdOnly? && SmallerUser(x, e)))
  }

  function AheadInBoth(e: Row, spec: Spec): Row -> bool {
    (x: Row) => x.score == e.score && SqlAhead(x, e) && OrderedAhead(x, e, spec)
  }

  lemma TieBreakerCounts(entries: seq<Row>, e: Row, spec: Spec)
    ensures Count(entries, SqlAheadAmong(e)) + Count(entries, OnlyBoardAhead(e, spec.tieBreaker))
            == Count(entries, OrderedAheadAmong(e, spec)) + Count(entries, OnlySqlAhead(e, spec.tieBreaker))
  {
    hide Count, StrLe;
    CountEither(entries, SqlAheadAmong(e), OnlySqlAhead(e, spec.tieBreaker), AheadInBoth(e, spec));
    CountEither(entries, OrderedAheadAmong(e, spec), OnlyBoardAhead(e, spec.tieBreaker), AheadInBoth(e, spec));
  }

  /**
   * How far the SQL rank is from the position, on any board: by the scores above against those the direction puts
   * ahead, and by the equal scores only SQL puts ahead against those only the tie-breaker does. Highest first, the
   * tie-breaker alone decides.
   */
  lemma SqlRankOffBy(entries: seq<Row>, spec: Spec, j: nat)
    requires DistinctUsers(entries) && j < |entries|
    ensures var sorted, tb := Sort(entries, spec), spec.tieBreaker;
            && |sorted| == |entries|
            && SqlRank(entries, sorted[j]) + Count(entries, BetterOf(sorted[j], spec))
               + Count(entries, OnlyBoardAhead(sorted[j], tb))
               == j + 1 + Count(entries, AboveOf(sorted[j])) + Count(entries, OnlySqlAhead(sorted[j], tb))
            && (spec.direction.Highest? ==>
                  (SqlRank(entries, sorted[j]) == j + 1 <==>
                     Count(entries, OnlyBoardAhead(sorted[j], tb)) == Count(entries, OnlySqlAhead(sorted[j], tb))))
  {
    hide Count, Sort, DistinctUsers, SqlRank, StrLe;
    PositionCounts(entries, spec, j);
    var e := Sort(entries, spec)[j];
    SqlRankCounts(entries, e);
    OrderedCounts(entries, e, spec);
    TieBreakerCounts(entries, e, spec);
  }

  /** Of two equal scores the later is first on a latest-first board, or by a lesser user id: it is second by SQL. */
  lemma TieBreakersIgnored(a: Row, b: Row)
    requires a.score == b.score && a.achievedAt > b.achievedAt
    ensures Count([a, b], OrderedAheadOf(a, Spec(Highest, LatestAchievedThenUserId))) == 0
    ensures SmallerUser(a, b) ==> Count([a, b], OrderedAheadOf(a, Spec(Highest, UserIdOnly))) == 0
    ensures SqlRank([a, b], a) == 2
  {
    StrOrder(a.user, b.user, "");
    CountOfTwo(a, b, OrderedAheadOf(a, Spec(Highest, LatestAchievedThenUserId)));
    CountOfTwo(a, b, OrderedAheadOf(a, Spec(Highest, UserIdOnly)));
    CountOfTwo(a, b, SqlAheadOf(a));
  }

  lemma CountOfTwo(a: Row, b: Row, p: Row -> bool)
    ensures Count([a, b], p) == (if p(a) then 1 else 0) + if p(b) then 1 else 0
  {
    assert [a, b][..1] == [a] && [a][..0] == [];
    assert Count([a], p) == Count([], p) + if p(a) then 1 else 0;
    assert Count([a, b], p) == Count([a], p) + if p(b) then 1 else 0;
  }

  /** The SQL rank is the shared rank of ties exactly for the row with the least user id among them. */
  lemma SqlRankIsSharedRank(entries: seq<Row>, e: Row)
    ensures SqlRank(entries, e) == 1 + Ahead(entries, e, SERVED) <==>
            forall x :: x in entries && Ties(x, e, SERVED) ==> !SmallerUser(x, e)
  {
    hide Count, StrLe;
    CountEither(entries, SqlAheadOf(e), BeforeRow(e, SERVED), TiesSmaller(e));
    CountNone(entries, TiesSmaller(e));
  }

  /** Two rows that tie share rank one, and SQL calls one of them second. */
  lemma TiedRowsDiffer(a: Row, b: Row)
    requires Ties(a, b, SERVED) && SmallerUser(a, b)
    ensures Ahead([a, b], a, SERVED) == 0 == Ahead([a, b], b, SERVED)
    ensures SqlRank([a, b], a) == 1 && SqlRank([a, b], b) == 2
  {
    StrOrder(a.user, b.user, "");
    CountOfTwo(a, b, BeforeRow(a, SERVED));
    CountOfTwo(a, b, BeforeRow(b, SERVED));
    CountOfTwo(a, b, SqlAheadOf(a));
    CountOfTwo(a, b, SqlAheadOf(b));
  }

  /** The SQL tie count ignores time: it agrees with the board exactly when equal scores were reached at one instant. */
  lemma SqlTiedAgrees(entries: seq<Row>, e: Row)
    requires e in entries
    ensures SqlTied(entries, e) >= Tied(entries, e, SERVED)
    ensures SqlTied(entries, e) == Tied(entries, e, SERVED) <==>
            forall x :: x in entries && x.score == e.score ==> x.achievedAt == e.achievedAt
  {
    CountImplied(entries, TiesRow(e, SERVED), SameScore(e));
  }

  lemma {:induction false} CountImplied(rows: seq<Row>, p: Row -> bool, q: Row -> bool)
    requires forall x :: p(x) ==> q(x)
    ensures Count(rows, p) <= Count(rows, q)
    ensures Count(rows, p) == Count(rows, q) <==> forall x :: x in rows && q(x) ==> p(x)
  {
    if rows == [] {
    } else {
      var n := |rows| - 1;
      CountImplied(rows[..n], p, q);
      assert rows == rows[..n] + [rows[n]];
    }
  }

  /** With distinct scores a lowest-first board is numbered backwards, whatever breaks its ties. */
  lemma SqlRankReversesScores(entries: seq<Row>, tieBreaker: TieBreaker, j: nat)
    requires j < |entries|
    requires forall i, k :: 0 <= i < k < |entries| ==> entries[i].score != entries[k].score
    ensures var sorted := Sort(entries, Spec(Lowest, tieBreaker));
            |sorted| == |entries| && SqlRank(entries, sorted[j]) == |entries| - j
  {
    var spec := Spec(Lowest, tieBreaker);
    hide Sort, StrLe, TimeKey, Sorted;
    SortIs(entries, spec);
    var sorted := Sort(entries, spec);
    LowestFirst(entries, sorted, spec, j);
    CountRange(sorted, SqlAheadOf(sorted[j]), j + 1, |sorted|);
    CountPermuted(sorted, entries, SqlAheadOf(sorted[j]));
  }

  lemma LowestFirst(entries: seq<Row>, sorted: seq<Row>, spec: Spec, j: nat)
    requires spec.direction.Lowest? && Sorted(sorted, spec) && multiset(sorted) == multiset(entries)
    requires |sorted| == |entries| && j < |sorted|
    requires forall i, k :: 0 <= i < k < |entries| ==> entries[i].score != entries[k].score
    ensures forall i :: 0 <= i < |sorted| ==> (SqlAhead(sorted[i], sorted[j]) <==> j < i)
  {
    forall i | 0 <= i < |sorted| ensures SqlAhead(sorted[i], sorted[j]) <==> j < i {
      if i != j {
        ScoresDiffer(entries, sorted, i, j);
        assert i < j ==> KeyLe(sorted[i], sorted[j], spec);
        assert j < i ==> KeyLe(sorted[j], sorted[i], spec);
      }
    }
  }

  lemma ScoresDiffer(entries: seq<Row>, sorted: seq<Row>, i: nat, j: nat)
    requires multiset(sorted) == multiset(entries) && i < |sorted| && j < |sorted| && i != j
    requires forall i, k :: 0 <= i < k < |entries| ==> entries[i].score != entries[k].score
    ensures sorted[i].score != sorted[j].score
  {
    if sorted[i].score == sorted[j].score {
      CountTwice(sorted, if i < j then i else j, if i < j then j else i, SameScore(sorted[i]));
      CountPermuted(sorted, entries, SameScore(sorted[i]));
      CountOneScore(entries, sorted[i]);
      assert false;
    }
  }

  lemma {:induction false} CountOneScore(rows: seq<Row>, e: Row)
    requires forall i, k :: 0 <= i < k < |rows| ==> rows[i].score != rows[k].score
    ensures Count(rows, SameScore(e)) <= 1
  {
    if rows == [] {
    } else {
      var n := |rows| - 1;
      CountOneScore(rows[..n], e);
      if rows[n].score == e.score { CountRange(rows[..n], SameScore(e), 0, 0); }
    }
  }
}
