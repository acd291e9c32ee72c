/** The scoring pass of a contest board (backend/internal/handler/contests.go): one loop over the
    submissions that updates rows of cells, against the board as a fold per user and problem label. */
module Scoring {
  import opened Freeze
  import opened Options

  type UserId = nat
  type ProblemId = nat

  const PENALTY_PER_WRONG := 1_200_000    // acmPenaltyPerWrong, in milliseconds

  datatype Mode = ACM | IOI
  datatype Status = AC | WA | TLE | MLE | RE | CE | SE | Pending | Judging
  datatype Sub = Sub(user: UserId, problem: ProblemId, status: Status, score: int, created: int, cancelled: bool)
  datatype Cell = Cell(tag: string, attempts: nat, solvedMS: int, pending: nat, solved: bool)
  // penaltyMS holds the total score on an IOI board, as solvedMS holds a cell's score.
  datatype Row = Row(user: UserId, solved: int, penaltyMS: int, cells: map<string, Cell>,
                     rank: nat, starred: bool, cheated: bool)

  // What one pass over the submissions looks through.
  datatype Lens = Lens(mode: Mode, start: int, labels: map<ProblemId, string>, cheats: set<UserId>,
                       maskFrom: Option<int>, revealed: set<UserId>)

  // Duration.Milliseconds: nanoseconds to milliseconds, toward zero.
  function Millis(ns: int): int { if ns >= 0 then ns / 1_000_000 else -((-ns) / 1_000_000) }

  predicate IsFailed(status: Status) { status.WA? || status.TLE? || status.MLE? || status.RE? }

  predicate Visible(lens: Lens, sub: Sub) { !sub.cancelled && sub.user !in lens.cheats }

  predicate Masked(lens: Lens, sub: Sub) {
    lens.maskFrom.Some? && sub.user !in lens.revealed && sub.created > lens.maskFrom.value
  }

  function EmptyCell(tag: string): Cell { Cell(tag, 0, 0, 0, false) }

  function EmptyRow(user: UserId): Row { Row(user, 0, 0, map[], 0, false, false) }

  // ---------------------------------------------------------------- the board as a fold per cell

  // One submission seen by one cell.
  function CellStep(lens: Lens, cell: Cell, sub: Sub): Cell {
    match lens.mode
    case ACM =>
      if cell.solved then cell
      else if Masked(lens, sub) then cell.(pending := cell.pending + 1)
      else if sub.status == AC then
        cell.(solved := true, solvedMS := Millis(sub.created - lens.start) + cell.attempts * PENALTY_PER_WRONG)
      else if IsFailed(sub.status) then cell.(attempts := cell.attempts + 1)
      else cell
    case IOI =>
      if Masked(lens, sub) then cell.(pending := cell.pending + 1)
      else
        cell.(attempts := cell.attempts + 1, solved := cell.solved || sub.status == AC,
              solvedMS := if sub.score > cell.solvedMS then sub.score else cell.solvedMS)
  }

  function Fold(lens: Lens, tag: string, subs: seq<Sub>): Cell {
    if subs == [] then EmptyCell(tag)
    else CellStep(lens, Fold(lens, tag, subs[..|subs| - 1]), subs[|subs| - 1])
  }

  predicate InCell(lens: Lens, sub: Sub, user: UserId, tag: string) {
    Visible(lens, sub) && sub.user == user && sub.problem in lens.labels && lens.labels[sub.problem] == tag
  }

  // The submissions one cell is about, in their order.
  function CellSubs(lens: Lens, subs: seq<Sub>, user: UserId, tag: string): seq<Sub> {
    if subs == [] then []
    else
      var rest, last := CellSubs(lens, subs[..|subs| - 1], user, tag), subs[|subs| - 1];
      if InCell(lens, last, user, tag) then rest + [last] else rest
  }

  function Users(lens: Lens, subs: seq<Sub>): set<UserId> { set sub | sub in subs && Visible(lens, sub) :: sub.user }

  function Tried(lens: Lens, subs: seq<Sub>, user: UserId): set<string> {
    set sub | sub in subs && Visible(lens, sub) && sub.user == user && sub.problem in lens.labels ::
      lens.labels[sub.problem]
  }

  function CellAt(lens: Lens, subs: seq<Sub>, user: UserId, tag: string): Cell {
    Fold(lens, tag, CellSubs(lens, subs, user, tag))
  }

  function CellsOf(lens: Lens, subs: seq<Sub>, user: UserId): map<string, Cell> {
    map tag | tag in Tried(lens, subs, user) :: CellAt(lens, subs, user, tag)
  }

  function SolvedLabels(cells: map<string, Cell>): set<string> { set tag | tag in cells && cells[tag].solved }

  ghost function TotalOver(cells: map<string, Cell>, labels: set<string>): int
    requires labels <= cells.Keys
  {
    if labels == {} then 0
    else
      var tag :| tag in labels;
      cells[tag].solvedMS + TotalOver(cells, labels - {tag})
  }

  ghost function Total(cells: map<string, Cell>): int { TotalOver(cells, cells.Keys) }

  ghost function RowFrom(user: UserId, cells: map<string, Cell>): Row {
    Row(user, |SolvedLabels(cells)|, Total(cells), cells, 0, false, false)
  }

  ghost function RowOf(lens: Lens, subs: seq<Sub>, user: UserId): Row { RowFrom(user, CellsOf(lens, subs, user)) }

  ghost function Rows(lens: Lens, subs: seq<Sub>): map<UserId, Row> {
    map user | user in Users(lens, subs) :: RowOf(lens, subs, user)
  }

  // ---------------------------------------------------------------- totals

  lemma SubsetSize<T>(a: set<T>, b: set<T>)
    requires a <= b
    ensures |a| <= |b|
  {
    assert b == a + (b - a);
  }

  lemma {:induction false} TotalPick(cells: map<string, Cell>, labels: set<string>, tag: string)
    requires labels <= cells.Keys && tag in labels
    ensures TotalOver(cells, labels) == cells[tag].solvedMS + TotalOver(cells, labels - {tag})
  {
    var first :| first in labels && TotalOver(cells, labels) ==
                                    cells[first].solvedMS + TotalOver(cells, labels - {first});
    if first != tag {
      TotalPick(cells, labels - {first}, tag);
      TotalPick(cells, labels - {tag}, first);
      assert labels - {first} - {tag} == labels - {tag} - {first};
    }
  }

  lemma {:induction false} TotalAgrees(cells: map<string, Cell>, other: map<string, Cell>, labels: set<string>)
    requires labels <= cells.Keys && labels <= other.Keys
    requires forall tag | tag in labels :: cells[tag].solvedMS == other[tag].solvedMS
    ensures TotalOver(cells, labels) == TotalOver(other, labels)
  {
    if labels != {} {
      var tag :| tag in labels;
      TotalPick(cells, labels, tag);
      TotalPick(other, labels, tag);
      TotalAgrees(cells, other, labels - {tag});
    }
  }

  // A changed cell changes the total by its own difference.
  lemma TotalUpdate(cells: map<string, Cell>, tag: string, cell: Cell)
    ensures Total(cells[tag := cell]) ==
            Total(cells) + cell.solvedMS - (if tag in cells then cells[tag].solvedMS else 0)
  {
    var next := cells[tag := cell];
    TotalPick(next, next.Keys, tag);
    assert next.Keys - {tag} == cells.Keys - {tag};
    TotalAgrees(cells, next, cells.Keys - {tag});
    if tag in cells {
      TotalPick(cells, cells.Keys, tag);
    } else {
      assert cells.Keys - {tag} == cells.Keys;
    }
  }

  lemma SolvedUpdate(cells: map<string, Cell>, tag: string, cell: Cell)
    requires tag in cells && cells[tag].solved ==> cell.solved
    ensures |SolvedLabels(cells[tag := cell])| ==
            |SolvedLabels(cells)| + if cell.solved && !(tag in cells && cells[tag].solved) then 1 else 0
  {
    if cell.solved {
      assert SolvedLabels(cells[tag := cell]) == SolvedLabels(cells) + {tag};
    } else {
      assert SolvedLabels(cells[tag := cell]) == SolvedLabels(cells);
    }
  }

  // ---------------------------------------------------------------- one submission more

  // A row's own bookkeeping: the cell changes and the totals move by the difference.
  function RowStep(lens: Lens, row: Row, sub: Sub): Row {
    if sub.problem !in lens.labels then row
    else
      var tag := lens.labels[sub.problem];
      var cell := if tag in row.cells then row.cells[tag] else EmptyCell(tag);
      var next := CellStep(lens, cell, sub);
      row.(cells := row.cells[tag := next],
           solved := row.solved + (if next.solved && !cell.solved then 1 else 0),
           penaltyMS := row.penaltyMS + next.solvedMS - cell.solvedMS)
  }

  lemma TriedStep(lens: Lens, subs: seq<Sub>, sub: Sub, user: UserId)
    ensures Tried(lens, subs + [sub], user) ==
            Tried(lens, subs, user) +
            if Visible(lens, sub) && sub.user == user && sub.problem in lens.labels
            then {lens.labels[sub.problem]} else {}
  {
  }

  lemma CellAtStep(lens: Lens, subs: seq<Sub>, sub: Sub, user: UserId, tag: string)
    ensures CellAt(lens, subs + [sub], user, tag) ==
            if InCell(lens, sub, user, tag) then CellStep(lens, CellAt(lens, subs, user, tag), sub)
            else CellAt(lens, subs, user, tag)
  {
  }

  // A label nobody tried has no submissions.
  lemma {:induction false} UntriedIsEmpty(lens: Lens, subs: seq<Sub>, user: UserId, tag: string)
    requires tag !in Tried(lens, subs, user)
    ensures CellSubs(lens, subs, user, tag) == []
  {
    if subs != [] {
      var n := |subs| - 1;
      UntriedIsEmpty(lens, subs[..n], user, tag);
    }
  }

  lemma CellOneMore(lens: Lens, subs: seq<Sub>, sub: Sub, user: UserId, tag: string)
    ensures CellAt(lens, subs + [sub], user, tag) ==
            if InCell(lens, sub, user, tag)
            then
              var cell := if tag in Tried(lens, subs, user) then CellAt(lens, subs, user, tag) else EmptyCell(tag);
              CellStep(lens, cell, sub)
            else CellAt(lens, subs, user, tag)
  {
    CellAtStep(lens, subs, sub, user, tag);
    if tag !in Tried(lens, subs, user) {
      UntriedIsEmpty(lens, subs, user, tag);
    }
  }

  predicate Touches(lens: Lens, sub: Sub, user: UserId) {
    Visible(lens, sub) && sub.user == user && sub.problem in lens.labels
  }

  lemma CellsUntouched(lens: Lens, subs: seq<Sub>, sub: Sub, user: UserId)
    requires !Touches(lens, sub, user)
    ensures CellsOf(lens, subs + [sub], user) == CellsOf(lens, subs, user)
  {
    TriedStep(lens, subs, sub, user);
  }

  lemma CellsTouched(lens: Lens, subs: seq<Sub>, sub: Sub, user: UserId)
    requires Touches(lens, sub, user)
    ensures
      var cells, tag := CellsOf(lens, subs, user), lens.labels[sub.problem];
      CellsOf(lens, subs + [sub], user) ==
      cells[tag := CellStep(lens, if tag in cells then cells[tag] else EmptyCell(tag), sub)]
  {
    TriedStep(lens, subs, sub, user);
    forall tag | tag in Tried(lens, subs, user)
      ensures tag != lens.labels[sub.problem] ==>
                CellAt(lens, subs + [sub], user, tag) == CellAt(lens, subs, user, tag)
    {
    }
    CellOneMore(lens, subs, sub, user, lens.labels[sub.problem]);
  }

  // Solved cells stay solved.
  lemma StepKeepsSolved(lens: Lens, cell: Cell, sub: Sub)
    ensures cell.solved ==> CellStep(lens, cell, sub).solved
  {
  }

  lemma RowOfStep(lens: Lens, subs: seq<Sub>, sub: Sub, user: UserId)
    ensures RowOf(lens, subs + [sub], user) ==
            if Visible(lens, sub) && sub.user == user then RowStep(lens, RowOf(lens, subs, user), sub)
            else RowOf(lens, subs, user)
  {
    if Touches(lens, sub, user) {
      CellsTouched(lens, subs, sub, user);
      RowFromStep(lens, user, CellsOf(lens, subs, user), sub);
    } else {
      CellsUntouched(lens, subs, sub, user);
    }
  }

  // The totals follow a changed cell.
  lemma RowFromStep(lens: Lens, user: UserId, cells: map<string, Cell>, sub: Sub)
    requires sub.problem in lens.labels
    ensures
      var tag := lens.labels[sub.problem];
      var cell := if tag in cells then cells[tag] else EmptyCell(tag);
      RowFrom(user, cells[tag := CellStep(lens, cell, sub)]) == RowStep(lens, RowFrom(user, cells), sub)
  {
    var tag := lens.labels[sub.problem];
    var cell := if tag in cells then cells[tag] else EmptyCell(tag);
    StepKeepsSolved(lens, cell, sub);
    TotalUpdate(cells, tag, CellStep(lens, cell, sub));
    SolvedUpdate(cells, tag, CellStep(lens, cell, sub));
  }

  // A user without visible submissions has an empty row.
  lemma AbsentRowIsEmpty(lens: Lens, subs: seq<Sub>, user: UserId)
    requires user !in Users(lens, subs)
    ensures RowOf(lens, subs, user) == EmptyRow(user)
  {
  }

  lemma RowsStep(lens: Lens, subs: seq<Sub>, sub: Sub)
    ensures Rows(lens, subs + [sub]) ==
            if Visible(lens, sub) then Rows(lens, subs)[sub.user := RowStep(lens, RowOf(lens, subs, sub.user), sub)]
            else Rows(lens, subs)
  {
    forall user | user in Users(lens, subs + [sub])
      ensures RowOf(lens, subs + [sub], user) ==
              if Visible(lens, sub) && sub.user == user then RowStep(lens, RowOf(lens, subs, user), sub)
              else RowOf(lens, subs, user)
    {
      RowOfStep(lens, subs, sub, user);
    }
  }

  // An unsolved ACM cell carries no time.
  predicate UnsolvedIsZero(cells: map<string, Cell>) {
    forall tag | tag in cells && !cells[tag].solved :: cells[tag].solvedMS == 0
  }

  lemma {:induction false} FoldUnsolvedIsZero(lens: Lens, tag: string, subs: seq<Sub>)
    requires lens.mode == ACM
    ensures !Fold(lens, tag, subs).solved ==> Fold(lens, tag, subs).solvedMS == 0
  {
    if subs != [] {
      FoldUnsolvedIsZero(lens, tag, subs[..|subs| - 1]);
    }
  }

  lemma CellsUnsolvedIsZero(lens: Lens, subs: seq<Sub>, user: UserId)
    requires lens.mode == ACM
    ensures UnsolvedIsZero(CellsOf(lens, subs, user))
  {
    forall tag | tag in Tried(lens, subs, user) && !CellAt(lens, subs, user, tag).solved
      ensures CellAt(lens, subs, user, tag).solvedMS == 0
    {
      FoldUnsolvedIsZero(lens, tag, CellSubs(lens, subs, user, tag));
    }
  }

  // ---------------------------------------------------------------- the code

  // applySolve
  method ApplySolve(row0: Row, cell0: Cell, solveMS: int, frozenSolve: bool) returns (row: Row, cell: Cell)
    ensures frozenSolve ==> row == row0 && cell == cell0.(pending := cell0.pending + 1)
    ensures !frozenSolve ==>
              && cell == cell0.(solved := true, solvedMS := solveMS + cell0.attempts * PENALTY_PER_WRONG)
              && row == row0.(solved := row0.solved + 1, penaltyMS := row0.penaltyMS + cell.solvedMS)
  {
    row, cell := row0, cell0;
    if frozenSolve {
      cell := cell.(pending := cell.pending + 1);
      return;
    }
    cell := cell.(solved := true);
    cell := cell.(solvedMS := solveMS + cell.attempts * PENALTY_PER_WRONG);
    row := row.(solved := row.solved + 1);
    row := row.(penaltyMS := row.penaltyMS + cell.solvedMS);
  }

  // The part of the ACM loop body that works on one row.
  method RecordACM(lens: Lens, row0: Row, sub: Sub) returns (row: Row)
    requires lens.mode == ACM && UnsolvedIsZero(row0.cells)
    ensures row == RowStep(lens, row0, sub)
  {
    row := row0;
    if sub.problem !in lens.labels {
      return;
    }
    var tag := lens.labels[sub.problem];
    var cell := if tag in row.cells then row.cells[tag] else EmptyCell(tag);
    if !cell.solved {
      var isFrozenSub := Masked(lens, sub);
      if sub.status == AC {
        row, cell := ApplySolve(row, cell, Millis(sub.created - lens.start), isFrozenSub);
      } else if isFrozenSub {
        cell := cell.(pending := cell.pending + 1);
      } else if IsFailed(sub.status) {
        cell := cell.(attempts := cell.attempts + 1);
      }
    }
    row := row.(cells := row.cells[tag := cell]);
  }

  /** The pass of computeStandings, proved against the fold per cell. */
  method ScoreACM(lens: Lens, subs: seq<Sub>) returns (rows: map<UserId, Row>)
    requires lens.mode == ACM
    ensures rows == Rows(lens, subs)
  {
    rows := map[];
    for i := 0 to |subs|
      invariant rows == Rows(lens, subs[..i])
    {
      var sub := subs[i];
      assert subs[..i + 1] == subs[..i] + [sub];
      RowsStep(lens, subs[..i], sub);
      if !sub.cancelled && sub.user !in lens.cheats {
        if sub.user !in rows {
          AbsentRowIsEmpty(lens, subs[..i], sub.user);
        }
        CellsUnsolvedIsZero(lens, subs[..i], sub.user);
        var row := if sub.user in rows then rows[sub.user] else EmptyRow(sub.user);
        row := RecordACM(lens, row, sub);
        rows := rows[sub.user := row];
      }
    }
    assert subs[..|subs|] == subs;
  }

  // The part of the IOI loop body that works on one row; the totals come later.
  method RecordIOI(lens: Lens, row0: Row, sub: Sub) returns (row: Row)
    requires lens.mode == IOI
    ensures row == RowStep(lens, row0, sub).(solved := row0.solved, penaltyMS := row0.penaltyMS)
  {
    row := row0;
    if sub.problem !in lens.labels {
      return;
    }
    var tag := lens.labels[sub.problem];
    var cell := if tag in row.cells then row.cells[tag] else EmptyCell(tag);
    if Masked(lens, sub) {
      cell := cell.(pending := cell.pending + 1);
    } else {
      cell := cell.(attempts := cell.attempts + 1);
      if sub.score > cell.solvedMS {
        cell := cell.(solvedMS := sub.score);
      }
      if sub.status == AC {
        cell := cell.(solved := true);
      }
    }
    row := row.(cells := row.cells[tag := cell]);
  }

  ghost function NoTotals(rows: map<UserId, Row>): map<UserId, Row> {
    map user | user in rows :: rows[user].(solved := 0, penaltyMS := 0)
  }

  lemma NoTotalsUpdate(rows: map<UserId, Row>, user: UserId, row: Row)
    ensures NoTotals(rows[user := row]) == NoTotals(rows)[user := row.(solved := 0, penaltyMS := 0)]
  {
  }

  // The loop body without totals does to a row what RowStep does, totals aside.
  lemma StepNoTotals(lens: Lens, subs: seq<Sub>, sub: Sub)
    requires Visible(lens, sub)
    ensures
      var rows, row := NoTotals(Rows(lens, subs)), RowOf(lens, subs, sub.user);
      && NoTotals(Rows(lens, subs + [sub])) == rows[sub.user := RowStep(lens, row, sub).(solved := 0, penaltyMS := 0)]
      && (if sub.user in rows then rows[sub.user] else EmptyRow(sub.user)) == row.(solved := 0, penaltyMS := 0)
      && RowStep(lens, row.(solved := 0, penaltyMS := 0), sub).(solved := 0, penaltyMS := 0)
         == RowStep(lens, row, sub).(solved := 0, penaltyMS := 0)
  {
    var rows, row := Rows(lens, subs), RowOf(lens, subs, sub.user);
    RowsStep(lens, subs, sub);
    NoTotalsUpdate(rows, sub.user, RowStep(lens, row, sub));
    FiledNoTotals(lens, subs, sub.user);
    RowStepNoTotals(lens, row, sub);
  }

  lemma FiledNoTotals(lens: Lens, subs: seq<Sub>, user: UserId)
    ensures
      var rows := NoTotals(Rows(lens, subs));
      (if user in rows then rows[user] else EmptyRow(user)) == RowOf(lens, subs, user).(solved := 0, penaltyMS := 0)
  {
    if user !in Users(lens, subs) {
      AbsentRowIsEmpty(lens, subs, user);
    }
  }

  lemma RowStepNoTotals(lens: Lens, row: Row, sub: Sub)
    ensures RowStep(lens, row.(solved := 0, penaltyMS := 0), sub).(solved := 0, penaltyMS := 0) ==
            RowStep(lens, row, sub).(solved := 0, penaltyMS := 0)
  {
  }

  lemma SolvedPick(cells: map<string, Cell>, rest: set<string>, tag: string)
    requires tag in rest && rest <= cells.Keys
    ensures |SolvedLabels(cells) - (rest - {tag})| ==
            |SolvedLabels(cells) - rest| + if cells[tag].solved then 1 else 0
  {
    var all := SolvedLabels(cells);
    if cells[tag].solved {
      assert all - (rest - {tag}) == (all - rest) + {tag};
    } else {
      assert all - (rest - {tag}) == all - rest;
    }
  }

  // The inner loop over one row's cells, in the map's own order.
  method Totals(cells: map<string, Cell>) returns (total: int, solved: int)
    ensures total == Total(cells) && solved == |SolvedLabels(cells)|
  {
    total, solved := 0, 0;
    var rest := cells.Keys;
    assert SolvedLabels(cells) - rest == {};
    while rest != {}
      invariant rest <= cells.Keys && total + TotalOver(cells, rest) == Total(cells)
      invariant solved == |SolvedLabels(cells) - rest|
      decreases rest
    {
      var tag :| tag in rest;
      TotalPick(cells, rest, tag);
      SolvedPick(cells, rest, tag);
      total := total + cells[tag].solvedMS;
      if cells[tag].solved {
        solved := solved + 1;
      }
      rest := rest - {tag};
    }
  }

  // The loop over the rows that fills in their totals.
  method FillTotals(scored: map<UserId, Row>) returns (rows: map<UserId, Row>)
    ensures rows == map user | user in scored ::
                      scored[user].(solved := |SolvedLabels(scored[user].cells)|,
                                    penaltyMS := Total(scored[user].cells))
  {
    rows := scored;
    var rest := scored.Keys;
    while rest != {}
      invariant rest <= scored.Keys && rows.Keys == scored.Keys
      invariant forall user | user in rest :: rows[user] == scored[user]
      invariant forall user | user in scored && user !in rest ::
                  rows[user] == scored[user].(solved := |SolvedLabels(scored[user].cells)|,
                                              penaltyMS := Total(scored[user].cells))
      decreases rest
    {
      var user :| user in rest;
      var total, solved := Totals(rows[user].cells);
      rows := rows[user := rows[user].(solved := solved, penaltyMS := total)];
      rest := rest - {user};
    }
  }

  // The loop over the submissions on an IOI board.
  method ScoreCells(lens: Lens, subs: seq<Sub>) returns (rows: map<UserId, Row>)
    requires lens.mode == IOI
    ensures rows == NoTotals(Rows(lens, subs))
  {
    rows := map[];
    for i := 0 to |subs|
      invariant rows == NoTotals(Rows(lens, subs[..i]))
    {
      var sub := subs[i];
      assert subs[..i + 1] == subs[..i] + [sub];
      if !sub.cancelled && sub.user !in lens.cheats {
        StepNoTotals(lens, subs[..i], sub);
        var row := if sub.user in rows then rows[sub.user] else EmptyRow(sub.user);
        row := RecordIOI(lens, row, sub);
        rows := rows[sub.user := row];
      } else {
        RowsStep(lens, subs[..i], sub);
      }
    }
    assert subs[..|subs|] == subs;
  }

  /** The pass of computeIOIStandings, proved against the fold per cell. */
  method ScoreIOI(lens: Lens, subs: seq<Sub>) returns (rows: map<UserId, Row>)
    requires lens.mode == IOI
    ensures rows == Rows(lens, subs)
  {
    rows := ScoreCells(lens, subs);
    rows := FillTotals(rows);
  }
}
