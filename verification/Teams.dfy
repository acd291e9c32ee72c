/** The team board (backend/internal/handler/contests.go, teamStandings): member rows merged per team. */
module Teams {
  import Ordering
  import opened Ranking
  import opened Scoring
  import opened BoardCells

  type TeamId = nat

  // How a member's cell joins the team's.
  function Merge(cur: Cell, cell: Cell): Cell {
    if cell.solved && (!cur.solved || cell.solvedMS < cur.solvedMS) then cell.(attempts := cur.attempts)
    else if !cell.solved && !cur.solved then
      cur.(attempts := cur.attempts + cell.attempts,
           pending := if cell.pending + cur.pending > 0 then 1 else cur.pending)
    else cur
  }

  function Merged(cells: seq<Cell>): Cell {
    if cells == [] then EmptyCell("")
    else if |cells| == 1 then cells[0]
    else Merge(Merged(cells[..|cells| - 1]), cells[|cells| - 1])
  }

  predicate InTeam(row: Row, teamOf: map<UserId, TeamId>, team: TeamId) {
    row.user in teamOf && teamOf[row.user] == team
  }

  function TeamIds(rows: seq<Row>, teamOf: map<UserId, TeamId>): set<TeamId> {
    set row | row in rows && row.user in teamOf :: teamOf[row.user]
  }

  // The members' cells under one label, in board order.
  function MemberCells(rows: seq<Row>, teamOf: map<UserId, TeamId>, team: TeamId, tag: string): seq<Cell> {
    if rows == [] then []
    else
      var rest, last := MemberCells(rows[..|rows| - 1], teamOf, team, tag), rows[|rows| - 1];
      if InTeam(last, teamOf, team) && tag in last.cells then rest + [last.cells[tag]] else rest
  }

  function TeamTags(rows: seq<Row>, teamOf: map<UserId, TeamId>, team: TeamId): set<string> {
    if rows == [] then {}
    else
      var rest, last := TeamTags(rows[..|rows| - 1], teamOf, team), rows[|rows| - 1];
      if InTeam(last, teamOf, team) then rest + last.cells.Keys else rest
  }

  function TeamCells(rows: seq<Row>, teamOf: map<UserId, TeamId>, team: TeamId): map<string, Cell> {
    map tag | tag in TeamTags(rows, teamOf, team) :: Merged(MemberCells(rows, teamOf, team, tag))
  }

  // What the totals are recomputed from: the solved cells.
  ghost function SolvedTotal(cells: map<string, Cell>): int { TotalOver(cells, SolvedLabels(cells)) }

  // The team carries its captain's flag.
  function CaptainFlag(team: TeamId, captains: map<TeamId, UserId>, flags: map<UserId, Flag>): Flag {
    var captain := if team in captains then captains[team] else 0;
    if captain in flags then flags[captain] else Flag(false, false)
  }

  ghost function TeamRow(rows: seq<Row>, teamOf: map<UserId, TeamId>, captains: map<TeamId, UserId>,
                         flags: map<UserId, Flag>, team: TeamId): Row
  {
    var cells, flag := TeamCells(rows, teamOf, team), CaptainFlag(team, captains, flags);
    Row(team, |SolvedLabels(cells)|, SolvedTotal(cells), cells, 0, flag.starred, flag.cheated)
  }

  ghost function TeamRows(rows: seq<Row>, teamOf: map<UserId, TeamId>, captains: map<TeamId, UserId>,
                          flags: map<UserId, Flag>): (teams: map<TeamId, Row>)
    ensures Filed(teams)
  {
    map team | team in TeamIds(rows, teamOf) :: TeamRow(rows, teamOf, captains, flags, team)
  }

  // ---------------------------------------------------------------- what a merged cell means

  // Solved by some member, at the least of the solving members' times.
  ghost predicate EarliestSolve(cells: seq<Cell>, merged: Cell) {
    && (merged.solved <==> exists i :: 0 <= i < |cells| && cells[i].solved)
    && (merged.solved ==> exists i :: 0 <= i < |cells| && cells[i].solved && cells[i].solvedMS == merged.solvedMS)
    && (merged.solved ==> forall i | 0 <= i < |cells| && cells[i].solved :: merged.solvedMS <= cells[i].solvedMS)
  }

  lemma MergeEarliest(cells: seq<Cell>, cur: Cell, cell: Cell)
    requires EarliestSolve(cells, cur)
    ensures EarliestSolve(cells + [cell], Merge(cur, cell))
  {
    var all := cells + [cell];
    assert all[|cells|] == cell;
    assert forall i | 0 <= i < |cells| :: all[i] == cells[i];
  }

  /** A team cell is solved exactly when some member solved it, at the earliest of their times. */
  lemma {:induction false} MergedIsEarliest(cells: seq<Cell>)
    ensures EarliestSolve(cells, Merged(cells))
  {
    if |cells| > 1 {
      var n := |cells| - 1;
      MergedIsEarliest(cells[..n]);
      MergeEarliest(cells[..n], Merged(cells[..n]), cells[n]);
      assert cells == cells[..n] + [cells[n]];
    } else if |cells| == 1 {
      assert cells[0].solved ==> EarliestSolve(cells, cells[0]);
    }
  }

  // A cell somebody in the team has.
  ghost predicate HasCell(rows: seq<Row>, teamOf: map<UserId, TeamId>, team: TeamId, tag: string, cell: Cell) {
    exists row :: row in rows && InTeam(row, teamOf, team) && tag in row.cells && row.cells[tag] == cell
  }

  lemma {:induction false} MemberCellsAre(rows: seq<Row>, teamOf: map<UserId, TeamId>, team: TeamId, tag: string,
                                          cell: Cell)
    ensures cell in MemberCells(rows, teamOf, team, tag) <==> HasCell(rows, teamOf, team, tag, cell)
    ensures tag in TeamTags(rows, teamOf, team) <==> MemberCells(rows, teamOf, team, tag) != []
  {
    if rows != [] {
      var n := |rows| - 1;
      MemberCellsAre(rows[..n], teamOf, team, tag, cell);
      assert forall row :: row in rows <==> row in rows[..n] || row == rows[n];
    }
  }

  predicate SolvedBy(row: Row, teamOf: map<UserId, TeamId>, team: TeamId, tag: string) {
    InTeam(row, teamOf, team) && tag in row.cells && row.cells[tag].solved
  }

  /** On the team board a problem is solved exactly when some member's row has it solved, at the
      earliest of their times. */
  lemma TeamSolvesEarliest(rows: seq<Row>, teamOf: map<UserId, TeamId>, captains: map<TeamId, UserId>,
                           flags: map<UserId, Flag>, team: TeamId, tag: string)
    ensures
      var cells := TeamRow(rows, teamOf, captains, flags, team).cells;
      && (tag in cells && cells[tag].solved <==> exists row :: row in rows && SolvedBy(row, teamOf, team, tag))
      && (tag in cells && cells[tag].solved ==>
            && (forall row | row in rows && SolvedBy(row, teamOf, team, tag) ::
                  cells[tag].solvedMS <= row.cells[tag].solvedMS)
            && exists row :: row in rows && SolvedBy(row, teamOf, team, tag) &&
                             row.cells[tag].solvedMS == cells[tag].solvedMS)
  {
    var list := MemberCells(rows, teamOf, team, tag);
    MergedIsEarliest(list);
    forall cell
      ensures cell in list <==> HasCell(rows, teamOf, team, tag, cell)
      ensures tag in TeamTags(rows, teamOf, team) <==> list != []
    {
      MemberCellsAre(rows, teamOf, team, tag, cell);
    }
    MemberCellsAre(rows, teamOf, team, tag, EmptyCell(tag));
    assert forall i | 0 <= i < |list| :: list[i] in list;
    assert forall row | row in rows && SolvedBy(row, teamOf, team, tag) ::
        HasCell(rows, teamOf, team, tag, row.cells[tag]);
  }

  // Two sequences with the same members have the same earliest solve.
  lemma SameEarliest(a: seq<Cell>, x: Cell, b: seq<Cell>, y: Cell)
    requires EarliestSolve(a, x) && EarliestSolve(b, y) && forall cell :: cell in a <==> cell in b
    ensures x.solved == y.solved && (x.solved ==> x.solvedMS == y.solvedMS)
  {
    assert forall i | 0 <= i < |a| :: a[i] in b;
    assert forall i | 0 <= i < |b| :: b[i] in a;
  }

  // The parts of two team rows that decide score and rank.
  ghost predicate SameScore(x: Row, y: Row) {
    && x.user == y.user && x.solved == y.solved && x.penaltyMS == y.penaltyMS && Tier(x) == Tier(y)
    && x.cells.Keys == y.cells.Keys
    && forall tag | tag in x.cells ::
         && x.cells[tag].solved == y.cells[tag].solved
         && (x.cells[tag].solved ==> x.cells[tag].solvedMS == y.cells[tag].solvedMS)
  }

  lemma PermutedCells(a: seq<Row>, b: seq<Row>, teamOf: map<UserId, TeamId>, team: TeamId, tag: string)
    requires multiset(a) == multiset(b)
    ensures tag in TeamTags(a, teamOf, team) <==> tag in TeamTags(b, teamOf, team)
    ensures
      var x, y := Merged(MemberCells(a, teamOf, team, tag)), Merged(MemberCells(b, teamOf, team, tag));
      x.solved == y.solved && (x.solved ==> x.solvedMS == y.solvedMS)
  {
    Ordering.SameMembers(a, b);
    var sa, sb := MemberCells(a, teamOf, team, tag), MemberCells(b, teamOf, team, tag);
    forall cell
      ensures cell in sa <==> cell in sb
    {
      MemberCellsAre(a, teamOf, team, tag, cell);
      MemberCellsAre(b, teamOf, team, tag, cell);
    }
    if sa != [] {
      assert sa[0] in sb;
    }
    if sb != [] {
      assert sb[0] in sa;
    }
    MemberCellsAre(a, teamOf, team, tag, EmptyCell(tag));
    MemberCellsAre(b, teamOf, team, tag, EmptyCell(tag));
    MergedIsEarliest(sa);
    MergedIsEarliest(sb);
    SameEarliest(sa, Merged(sa), sb, Merged(sb));
  }

  /** Whatever the order of the member rows, a team has the same cells solved at the same times, hence
      the same totals. */
  lemma TeamScoreIgnoresOrder(a: seq<Row>, b: seq<Row>, teamOf: map<UserId, TeamId>, captains: map<TeamId, UserId>,
                              flags: map<UserId, Flag>, team: TeamId)
    requires multiset(a) == multiset(b)
    ensures SameScore(TeamRow(a, teamOf, captains, flags, team), TeamRow(b, teamOf, captains, flags, team))
  {
    var x, y := TeamCells(a, teamOf, team), TeamCells(b, teamOf, team);
    forall tag
      ensures tag in TeamTags(a, teamOf, team) <==> tag in TeamTags(b, teamOf, team)
      ensures
        var p, q := Merged(MemberCells(a, teamOf, team, tag)), Merged(MemberCells(b, teamOf, team, tag));
        p.solved == q.solved && (p.solved ==> p.solvedMS == q.solvedMS)
    {
      PermutedCells(a, b, teamOf, team, tag);
    }
    assert x.Keys == y.Keys;
    assert SolvedLabels(x) == SolvedLabels(y);
    TotalAgrees(x, y, SolvedLabels(x));
  }

  lemma SameScoreSameAhead(x: map<TeamId, Row>, y: map<TeamId, Row>, team: TeamId)
    requires x.Keys == y.Keys && team in x && forall t | t in x :: SameScore(x[t], y[t])
    ensures Ahead(ACM, x, team) == Ahead(ACM, y, team)
  {
  }

  /** So the order of the teams on the board does not depend on it either. */
  lemma TeamOrderIgnoresOrder(a: seq<Row>, b: seq<Row>, teamOf: map<UserId, TeamId>, captains: map<TeamId, UserId>,
                              flags: map<UserId, Flag>, team: TeamId)
    requires multiset(a) == multiset(b) && team in TeamIds(a, teamOf)
    ensures
      var x, y := TeamRows(a, teamOf, captains, flags), TeamRows(b, teamOf, captains, flags);
      x.Keys == y.Keys && Ahead(ACM, x, team) == Ahead(ACM, y, team)
  {
    var x, y := TeamRows(a, teamOf, captains, flags), TeamRows(b, teamOf, captains, flags);
    assert x.Keys == y.Keys by {
      Ordering.SameMembers(a, b);
    }
    forall t | t in x
      ensures SameScore(x[t], y[t])
    {
      TeamScoreIgnoresOrder(a, b, teamOf, captains, flags, t);
    }
    SameScoreSameAhead(x, y, team);
  }

  // ---------------------------------------------------------------- the code

  // The loop over one member's cells, in the map's own order.
  method MergeCells(team: map<string, Cell>, cells: map<string, Cell>) returns (merged: map<string, Cell>)
    ensures merged.Keys == team.Keys + cells.Keys
    ensures forall tag | tag in merged :: merged[tag] ==
              if tag !in cells then team[tag] else if tag !in team then cells[tag] else Merge(team[tag], cells[tag])
  {
    merged := team;
    var rest := cells.Keys;
    while rest != {}
      invariant rest <= cells.Keys && merged.Keys == team.Keys + (cells.Keys - rest)
      invariant forall tag | tag in merged :: merged[tag] ==
                  if tag !in cells || tag in rest then team[tag]
                  else if tag !in team then cells[tag] else Merge(team[tag], cells[tag])
      decreases rest
    {
      var tag :| tag in rest;
      var cell := cells[tag];
      if tag !in merged {
        merged := merged[tag := cell];
      } else {
        var cur := merged[tag];
        if cell.solved && (!cur.solved || cell.solvedMS < cur.solvedMS) {
          merged := merged[tag := cell.(attempts := cur.attempts)];
        } else if !cell.solved && !cur.solved {
          var both := cur.(attempts := cur.attempts + cell.attempts);
          if cell.pending + cur.pending > 0 {
            both := both.(pending := 1);
          }
          merged := merged[tag := both];
        }
      }
      rest := rest - {tag};
    }
  }

  lemma TeamTagsStep(rows: seq<Row>, row: Row, teamOf: map<UserId, TeamId>, team: TeamId, tag: string)
    ensures TeamTags(rows + [row], teamOf, team) ==
            TeamTags(rows, teamOf, team) + if InTeam(row, teamOf, team) then row.cells.Keys else {}
    ensures MemberCells(rows + [row], teamOf, team, tag) ==
            MemberCells(rows, teamOf, team, tag) +
            if InTeam(row, teamOf, team) && tag in row.cells then [row.cells[tag]] else []
  {
  }

  lemma TeamCellStep(rows: seq<Row>, row: Row, teamOf: map<UserId, TeamId>, team: TeamId, tag: string)
    ensures
      var cells := MemberCells(rows, teamOf, team, tag);
      Merged(MemberCells(rows + [row], teamOf, team, tag)) ==
      if !(InTeam(row, teamOf, team) && tag in row.cells) then Merged(cells)
      else if tag in TeamTags(rows, teamOf, team) then Merge(Merged(cells), row.cells[tag])
      else row.cells[tag]
  {
    TeamTagsStep(rows, row, teamOf, team, tag);
  }

  // What a member's row does to its own team, and not to the others.
  lemma TeamCellsStep(rows: seq<Row>, row: Row, teamOf: map<UserId, TeamId>, team: TeamId)
    ensures
      var before, after := TeamCells(rows, teamOf, team), TeamCells(rows + [row], teamOf, team);
      if InTeam(row, teamOf, team) then
        after.Keys == before.Keys + row.cells.Keys &&
        forall tag | tag in after :: after[tag] ==
          if tag !in row.cells then before[tag]
          else if tag !in before then row.cells[tag] else Merge(before[tag], row.cells[tag])
      else after == before
  {
    forall tag
      ensures Merged(MemberCells(rows + [row], teamOf, team, tag)) ==
              if !(InTeam(row, teamOf, team) && tag in row.cells) then Merged(MemberCells(rows, teamOf, team, tag))
              else if tag in TeamTags(rows, teamOf, team)
              then Merge(Merged(MemberCells(rows, teamOf, team, tag)), row.cells[tag])
              else row.cells[tag]
    {
      TeamCellStep(rows, row, teamOf, team, tag);
    }
  }

  lemma NewTeamIsEmpty(rows: seq<Row>, teamOf: map<UserId, TeamId>, team: TeamId)
    requires team !in TeamIds(rows, teamOf)
    ensures TeamCells(rows, teamOf, team) == map[]
  {
    if rows != [] {
      var n := |rows| - 1;
      NewTeamIsEmpty(rows[..n], teamOf, team);
    }
  }

  ghost predicate Collected(teams: map<TeamId, Row>, rows: seq<Row>, teamOf: map<UserId, TeamId>) {
    teams.Keys == TeamIds(rows, teamOf) && forall team | team in teams ::
      Unfinished(teams[team], team) && teams[team].cells == TeamCells(rows, teamOf, team)
  }

  // A team row before its totals are recomputed: no number and no flag yet.
  predicate Unfinished(t: Row, team: TeamId) { t.user == team && t.rank == 0 && !t.starred && !t.cheated }

  lemma CollectedSkips(teams: map<TeamId, Row>, rows: seq<Row>, row: Row, teamOf: map<UserId, TeamId>)
    requires Collected(teams, rows, teamOf) && row.user !in teamOf
    ensures Collected(teams, rows + [row], teamOf)
  {
    forall team | team in teams
      ensures TeamCells(rows + [row], teamOf, team) == TeamCells(rows, teamOf, team)
    {
    }
  }

  lemma CollectedJoins(teams: map<TeamId, Row>, rows: seq<Row>, row: Row, teamOf: map<UserId, TeamId>, t: Row)
    requires Collected(teams, rows, teamOf) && row.user in teamOf
    requires Unfinished(t, teamOf[row.user]) && t.cells == TeamCells(rows + [row], teamOf, teamOf[row.user])
    ensures Collected(teams[teamOf[row.user] := t], rows + [row], teamOf)
  {
    forall team | team in teams && team != teamOf[row.user]
      ensures TeamCells(rows + [row], teamOf, team) == TeamCells(rows, teamOf, team)
    {
    }
  }

  // One member's row joins the team, which has the given cells so far.
  method JoinTeam(t0: Row, r: Row, ghost rows: seq<Row>, ghost teamOf: map<UserId, TeamId>) returns (t: Row)
    requires r.user in teamOf && t0.cells == TeamCells(rows, teamOf, teamOf[r.user])
    ensures t.cells == TeamCells(rows + [r], teamOf, teamOf[r.user])
    ensures t == t0.(solved := t.solved, penaltyMS := t.penaltyMS, cells := t.cells)
  {
    TeamCellsStep(rows, r, teamOf, teamOf[r.user]);
    var cells := MergeCells(t0.cells, r.cells);
    t := t0.(solved := t0.solved + r.solved, penaltyMS := t0.penaltyMS + r.penaltyMS, cells := cells);
  }

  /** The loop over the member rows. */
  method CollectTeams(rows: seq<Row>, teamOf: map<UserId, TeamId>) returns (teams: map<TeamId, Row>)
    ensures Collected(teams, rows, teamOf)
  {
    teams := map[];
    for i := 0 to |rows|
      invariant Collected(teams, rows[..i], teamOf)
    {
      var r := rows[i];
      assert rows[..i + 1] == rows[..i] + [r];
      if r.user !in teamOf {
        CollectedSkips(teams, rows[..i], r, teamOf);
      } else {
        var team := teamOf[r.user];
        if team !in teams {
          NewTeamIsEmpty(rows[..i], teamOf, team);
        }
        var t := JoinTeam(if team in teams then teams[team] else EmptyRow(team), r, rows[..i], teamOf);
        CollectedJoins(teams, rows[..i], r, teamOf, t);
        teams := teams[team := t];
      }
    }
    assert rows[..|rows|] == rows;
  }

  // The recomputed totals of one team.
  method SolvedTotals(cells: map<string, Cell>) returns (solved: int, penalty: int)
    ensures solved == |SolvedLabels(cells)| && penalty == SolvedTotal(cells)
  {
    solved, penalty := 0, 0;
    var rest := cells.Keys;
    assert SolvedLabels(cells) - rest == {} && SolvedLabels(cells) * rest == SolvedLabels(cells);
    while rest != {}
      invariant rest <= cells.Keys && solved == |SolvedLabels(cells) - rest|
      invariant penalty + TotalOver(cells, SolvedLabels(cells) * rest) == SolvedTotal(cells)
      decreases rest
    {
      var tag :| tag in rest;
      if cells[tag].solved {
        TotalPick(cells, SolvedLabels(cells) * rest, tag);
        assert SolvedLabels(cells) * rest - {tag} == SolvedLabels(cells) * (rest - {tag});
        solved := solved + 1;
        penalty := penalty + cells[tag].solvedMS;
      } else {
        assert SolvedLabels(cells) * rest == SolvedLabels(cells) * (rest - {tag});
      }
      rest := rest - {tag};
    }
  }

  // Totals recomputed from the merged cells, and the captain's flag.
  method FinishTeam(t0: Row, captains: map<TeamId, UserId>, flags: map<UserId, Flag>) returns (t: Row)
    ensures
      var flag := CaptainFlag(t0.user, captains, flags);
      t == t0.(solved := |SolvedLabels(t0.cells)|, penaltyMS := SolvedTotal(t0.cells),
               starred := flag.starred, cheated := flag.cheated)
  {
    var solved, penalty := SolvedTotals(t0.cells);
    var flag := CaptainFlag(t0.user, captains, flags);
    t := t0.(solved := solved, penaltyMS := penalty, starred := flag.starred, cheated := flag.cheated);
  }

  // The loop over the teams, in the map's own order.
  method ListTeams(teams: map<TeamId, Row>, captains: map<TeamId, UserId>, flags: map<UserId, Flag>,
                   ghost spec: map<TeamId, Row>) returns (out: seq<Row>)
    requires spec.Keys == teams.Keys && Filed(teams) && Filed(spec)
    requires forall team | team in teams ::
      var flag, cells := CaptainFlag(team, captains, flags), teams[team].cells;
      spec[team] == teams[team].(solved := |SolvedLabels(cells)|, penaltyMS := SolvedTotal(cells),
                                 starred := flag.starred, cheated := flag.cheated)
    ensures Lists(spec, out)
  {
    out := [];
    var rest := teams.Keys;
    while rest != {}
      invariant ListsAllBut(spec, rest, out)
      decreases rest
    {
      var team :| team in rest;
      var t := FinishTeam(teams[team], captains, flags);
      ListsOneMore(spec, rest, out, team);
      out := out + [t];
      rest := rest - {team};
    }
    ListsAll(spec, out);
  }

  /** teamStandings: without registered teams the rows are returned as they are; otherwise the board is
      the ranking of the merged team rows. */
  method TeamStandings(rows: seq<Row>, teamOf: map<UserId, TeamId>, captains: map<TeamId, UserId>,
                       flags: map<UserId, Flag>) returns (out: seq<Row>)
    ensures teamOf == map[] ==> out == rows
    ensures teamOf != map[] ==> IsRanked(ACM, TeamRows(rows, teamOf, captains, flags), out)
  {
    if teamOf == map[] {
      return rows;
    }
    var teams := CollectTeams(rows, teamOf);
    ghost var spec := TeamRows(rows, teamOf, captains, flags);
    out := ListTeams(teams, captains, flags, spec);
    out := SortAndNumber(ACM, out, spec);
  }
}
