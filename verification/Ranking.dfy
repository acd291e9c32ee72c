/** The order and the rank numbers of a board (backend/internal/handler/contests.go: rankRows and the
    re-sort of computeIOIStandings). */
module Ranking {
  import opened Ordering
  import opened Scoring

  datatype Flag = Flag(starred: bool, cheated: bool)

  function Tier(row: Row): nat { if row.cheated then 2 else if row.starred then 1 else 0 }

  predicate RowLess(mode: Mode, a: Row, b: Row) {
    if Tier(a) != Tier(b) then Tier(a) < Tier(b)
    else
      match mode
      case ACM =>
        if a.solved != b.solved then a.solved > b.solved
        else if a.penaltyMS != b.penaltyMS then a.penaltyMS < b.penaltyMS
        else a.user < b.user
      case IOI => if a.penaltyMS != b.penaltyMS then a.penaltyMS > b.penaltyMS else a.user < b.user
  }

  function Order(mode: Mode): (Row, Row) -> bool { (a, b) => RowLess(mode, a, b) }

  lemma OrderIsStrictWeak(mode: Mode)
    ensures StrictWeakOrder(Order(mode))
  {
  }

  // ---------------------------------------------------------------- what the board is

  // Rows are filed under their own user and not numbered yet.
  ghost predicate Filed(rows: map<UserId, Row>) {
    forall user | user in rows :: rows[user].user == user && rows[user].rank == 0
  }

  function Shown(out: seq<Row>): set<UserId> { set i | 0 <= i < |out| :: out[i].user }

  function Numbered(row: Row, place: nat): Row { row.(rank := if Tier(row) == 0 then place + 1 else 0) }

  /** Every row once, each strictly before the next; official rows carry their place, others none. */
  ghost predicate IsRanked(mode: Mode, rows: map<UserId, Row>, out: seq<Row>) {
    && Shown(out) == rows.Keys
    && (forall i | 0 <= i < |out| :: out[i].user in rows && out[i] == Numbered(rows[out[i].user], i))
    && (forall i, j | 0 <= i < j < |out| :: RowLess(mode, out[i], out[j]))
  }

  // Those ahead of a user.
  function Ahead(mode: Mode, rows: map<UserId, Row>, user: UserId): set<UserId>
    requires user in rows
  {
    set v | v in rows && RowLess(mode, rows[v], rows[user])
  }

  lemma {:induction false} ShownSize(out: seq<Row>)
    requires forall i, j | 0 <= i < j < |out| :: out[i].user != out[j].user
    ensures |Shown(out)| == |out|
  {
    if out == [] {
      assert Shown(out) == {};
    } else {
      var n := |out| - 1;
      ShownSize(out[..n]);
      assert Shown(out) == Shown(out[..n]) + {out[n].user};
      assert out[n].user !in Shown(out[..n]);
    }
  }

  // A list of the rows, whatever its order; rows outside the official tier carry no number.
  ghost predicate Lists(rows: map<UserId, Row>, out: seq<Row>) {
    && Shown(out) == rows.Keys
    && (forall i | 0 <= i < |out| ::
          out[i].user in rows && out[i].(rank := 0) == rows[out[i].user] && (Tier(out[i]) != 0 ==> out[i].rank == 0))
    && (forall i, j | 0 <= i < j < |out| :: out[i].user != out[j].user)
  }

  lemma RankedLists(mode: Mode, rows: map<UserId, Row>, out: seq<Row>)
    requires Filed(rows) && IsRanked(mode, rows, out)
    ensures Lists(rows, out)
  {
  }

  lemma OrderedBefore(mode: Mode, rows: map<UserId, Row>, out: seq<Row>, j: nat, i: nat)
    requires Filed(rows) && IsRanked(mode, rows, out) && i < |out| && j < |out|
    ensures RowLess(mode, rows[out[j].user], rows[out[i].user]) <==> j < i
  {
  }

  lemma AheadIsPrefix(mode: Mode, rows: map<UserId, Row>, out: seq<Row>, i: nat, v: UserId)
    requires Filed(rows) && IsRanked(mode, rows, out) && i < |out|
    ensures v in Ahead(mode, rows, out[i].user) <==> v in Shown(out[..i])
  {
    if v in rows {
      var j :| 0 <= j < |out| && out[j].user == v;
      OrderedBefore(mode, rows, out, j, i);
      if j < i {
        assert out[..i][j].user == v;
      }
      if v in Shown(out[..i]) {
        var k :| 0 <= k < |out[..i]| && out[..i][k].user == v;
        OrderedBefore(mode, rows, out, k, i);
      }
    }
  }

  /** A row's place is the number of rows ahead of it, so the board is determined by its rows. */
  lemma PlaceIsCount(mode: Mode, rows: map<UserId, Row>, out: seq<Row>, i: nat)
    requires Filed(rows) && IsRanked(mode, rows, out) && i < |out|
    ensures |Ahead(mode, rows, out[i].user)| == i
  {
    forall v
      ensures v in Ahead(mode, rows, out[i].user) <==> v in Shown(out[..i])
    {
      AheadIsPrefix(mode, rows, out, i, v);
    }
    assert Ahead(mode, rows, out[i].user) == Shown(out[..i]);
    RankedLists(mode, rows, out);
    ShownSize(out[..i]);
  }

  /** Whatever order the rows came in and however the sort breaks ties, there is one board. */
  lemma RankingIsUnique(mode: Mode, rows: map<UserId, Row>, a: seq<Row>, b: seq<Row>)
    requires Filed(rows) && IsRanked(mode, rows, a) && IsRanked(mode, rows, b)
    ensures a == b
  {
    ShownSize(a);
    ShownSize(b);
    forall i | 0 <= i < |a|
      ensures a[i] == b[i]
    {
      var j :| 0 <= j < |b| && b[j].user == a[i].user;
      PlaceIsCount(mode, rows, a, i);
      PlaceIsCount(mode, rows, b, j);
    }
  }

  predicate Official(row: Row) { !row.starred && !row.cheated }

  /** Official rows come first, then starred and then cheated ones. */
  lemma OfficialFirst(mode: Mode, rows: map<UserId, Row>, out: seq<Row>, i: nat, j: nat)
    requires Filed(rows) && IsRanked(mode, rows, out) && i < j < |out|
    ensures Tier(out[i]) <= Tier(out[j])
    ensures out[i].cheated ==> out[j].cheated
    ensures Official(out[j]) ==> Official(out[i])
  {
    assert RowLess(mode, out[i], out[j]);
  }

  /** They are numbered 1, 2, 3 and so on without a gap; the others carry the number 0. */
  lemma OfficialNumbers(mode: Mode, rows: map<UserId, Row>, out: seq<Row>, i: nat)
    requires Filed(rows) && IsRanked(mode, rows, out) && i < |out|
    ensures Official(out[i]) ==> out[i].rank == i + 1 && forall k | 0 <= k < i :: out[k].rank == k + 1
    ensures !Official(out[i]) ==> forall k | i <= k < |out| :: out[k].rank == 0
  {
    forall k, l | 0 <= k < l < |out|
      ensures Official(out[l]) ==> Official(out[k])
    {
      OfficialFirst(mode, rows, out, k, l);
    }
  }

  // ---------------------------------------------------------------- the code

  lemma PermutedLists(rows: map<UserId, Row>, s: seq<Row>, t: seq<Row>)
    requires Lists(rows, s) && multiset(s) == multiset(t)
    ensures Lists(rows, t)
  {
    SameMembers(s, t);
    PermutedNoRepeats(s, t);
    assert forall i | 0 <= i < |t| :: t[i] in s;
    assert forall i | 0 <= i < |s| :: s[i] in t;
  }

  lemma NumberedIsRanked(mode: Mode, rows: map<UserId, Row>, sorted: seq<Row>, out: seq<Row>)
    requires Lists(rows, sorted) && Filed(rows)
    requires forall i, j | 0 <= i < j < |sorted| :: !RowLess(mode, sorted[j], sorted[i])
    requires |out| == |sorted| && forall i | 0 <= i < |out| :: out[i] == Numbered(sorted[i], i)
    ensures IsRanked(mode, rows, out)
  {
    forall i, j | 0 <= i < j < |out|
      ensures RowLess(mode, out[i], out[j])
    {
    }
  }

  lemma SortedRows(mode: Mode, s: seq<Row>)
    requires Sorted(Order(mode), s)
    ensures forall i, j | 0 <= i < j < |s| :: !RowLess(mode, s[j], s[i])
  {
  }

  // Sorting and numbering, common to both modes.
  method SortAndNumber(mode: Mode, unsorted: seq<Row>, ghost rows: map<UserId, Row>) returns (out: seq<Row>)
    requires Filed(rows) && Lists(rows, unsorted)
    ensures IsRanked(mode, rows, out)
  {
    OrderIsStrictWeak(mode);
    var sorted := SortSlice(unsorted, Order(mode));
    PermutedLists(rows, unsorted, sorted);
    SortedRows(mode, sorted);
    out := NumberRows(sorted);
    NumberedIsRanked(mode, rows, sorted, out);
  }

  method NumberRows(sorted: seq<Row>) returns (out: seq<Row>)
    requires forall i, j | 0 <= i < j < |sorted| :: Tier(sorted[i]) <= Tier(sorted[j])
    requires forall i | 0 <= i < |sorted| :: Tier(sorted[i]) != 0 ==> sorted[i].rank == 0
    ensures |out| == |sorted| && forall i | 0 <= i < |out| :: out[i] == Numbered(sorted[i], i)
  {
    out := sorted;
    var rank := 0;
    for i := 0 to |sorted|
      invariant |out| == |sorted| && 0 <= rank <= i
      invariant forall k | 0 <= k < i :: out[k] == Numbered(sorted[k], k)
      invariant forall k | i <= k < |out| :: out[k] == sorted[k]
      invariant rank == i || (0 < i && Tier(sorted[i - 1]) != 0)
    {
      if Tier(out[i]) == 0 {
        rank := rank + 1;
        out := out[i := out[i].(rank := rank)];
      }
    }
  }

  function Cheats(flags: map<UserId, Flag>): set<UserId> { set user | user in flags && flags[user].cheated }

  function WithFlag(row: Row, flags: map<UserId, Flag>): Row {
    if row.user in flags then row.(starred := flags[row.user].starred, cheated := flags[row.user].cheated) else row
  }

  // The rows that go on the board: cheated users keep an empty row, and flags are applied.
  function Flagged(rows: map<UserId, Row>, flags: map<UserId, Flag>): map<UserId, Row> {
    map user | user in rows.Keys + Cheats(flags) ::
      WithFlag(if user in rows then rows[user] else EmptyRow(user), flags)
  }

  // The loop over the flags.
  method AddCheated(scored: map<UserId, Row>, flags: map<UserId, Flag>) returns (rows: map<UserId, Row>)
    ensures rows.Keys == scored.Keys + Cheats(flags)
    ensures forall user | user in rows :: rows[user] == if user in scored then scored[user] else EmptyRow(user)
  {
    rows := scored;
    var rest := flags.Keys;
    while rest != {}
      invariant rest <= flags.Keys && rows.Keys == scored.Keys + (Cheats(flags) - rest)
      invariant forall user | user in rows :: rows[user] == if user in scored then scored[user] else EmptyRow(user)
      decreases rest
    {
      var user :| user in rest;
      if flags[user].cheated && user !in rows {
        rows := rows[user := EmptyRow(user)];
      }
      rest := rest - {user};
    }
  }

  lemma ShownAppend(out: seq<Row>, row: Row)
    ensures Shown(out + [row]) == Shown(out) + {row.user}
  {
    var next := out + [row];
    assert next[|out|] == row;
    forall user | user in Shown(out)
      ensures user in Shown(next)
    {
      var i :| 0 <= i < |out| && out[i].user == user;
      assert next[i] == out[i];
    }
  }

  // A list grows by a row of a user it does not show yet.
  lemma ListsAppend(rows: map<UserId, Row>, out: seq<Row>, row: Row)
    requires Lists(rows, out) && row.user !in rows && row.rank == 0
    ensures Lists(rows[row.user := row], out + [row])
  {
    ShownAppend(out, row);
    assert forall i | 0 <= i < |out| :: out[i].user in Shown(out);
  }

  // All rows but some are listed.
  ghost predicate ListsAllBut(rows: map<UserId, Row>, rest: set<UserId>, out: seq<Row>) {
    rest <= rows.Keys && Lists(rows - rest, out)
  }

  lemma ListsOneMore(rows: map<UserId, Row>, rest: set<UserId>, out: seq<Row>, user: UserId)
    requires Filed(rows) && ListsAllBut(rows, rest, out) && user in rest
    ensures ListsAllBut(rows, rest - {user}, out + [rows[user]])
  {
    ListsAppend(rows - rest, out, rows[user]);
  }

  lemma ListsAll(rows: map<UserId, Row>, out: seq<Row>)
    requires ListsAllBut(rows, {}, out)
    ensures Lists(rows, out)
  {
  }

  // The first loop of rankRows, in the map's own order.
  method ListRows(rows: map<UserId, Row>, flags: map<UserId, Flag>) returns (out: seq<Row>)
    requires Filed(rows)
    ensures Lists(map user | user in rows :: WithFlag(rows[user], flags), out)
  {
    ghost var flagged := map user | user in rows :: WithFlag(rows[user], flags);
    out := [];
    var rest := rows.Keys;
    while rest != {}
      invariant ListsAllBut(flagged, rest, out)
      decreases rest
    {
      var user :| user in rest;
      ListsOneMore(flagged, rest, out, user);
      out := out + [WithFlag(rows[user], flags)];
      rest := rest - {user};
    }
    ListsAll(flagged, out);
  }

  /** rankRows, with the rows of cheated users added before it. */
  method RankRows(scored: map<UserId, Row>, flags: map<UserId, Flag>) returns (out: seq<Row>)
    requires Filed(scored)
    ensures IsRanked(ACM, Flagged(scored, flags), out)
  {
    var rows := AddCheated(scored, flags);
    var unsorted := ListRows(rows, flags);
    out := SortAndNumber(ACM, unsorted, Flagged(scored, flags));
  }

  /** The IOI board sorts and numbers what rankRows returned once more, by total score. */
  method RankRowsIOI(scored: map<UserId, Row>, flags: map<UserId, Flag>) returns (out: seq<Row>)
    requires Filed(scored)
    ensures IsRanked(IOI, Flagged(scored, flags), out)
  {
    out := RankRows(scored, flags);
    RankedLists(ACM, Flagged(scored, flags), out);
    out := SortAndNumber(IOI, out, Flagged(scored, flags));
  }
}
