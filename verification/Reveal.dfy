/** The reveal of a frozen board (backend/internal/handler/contests.go, computeStandings): when the board
    that the reveal set is taken from is the final one, and boards of two users worked out. */
module Reveal {
  import opened Freeze
  import opened Options
  import opened Ranking
  import opened Scoring
  import opened Standings
  import opened BoardCells
  import opened BoardLaws

  // ---------------------------------------------------------------- is the true board the final one?

  // The automatic freeze has set in.
  predicate AutoFrozen(inp: Input) { inp.contest.freezeTime.Some? && inp.now > inp.contest.freezeTime.value }

  // What the code takes the reveal set from sees through this lens: the lever is undone, the automatic
  // freeze is not.
  function TrueLens(inp: Input): Lens { LensOf(inp.(contest := TrueContest(inp.contest)), {}) }

  lemma NoLabelsNoCells(lens: Lens, subs: seq<Sub>)
    requires lens.labels == map[]
    ensures Rows(lens, subs) == Rows(Thawed(lens), subs)
  {
    ThawedCells(lens, subs, 0, "");
    forall user | user in Users(lens, subs)
      ensures RowOf(lens, subs, user) == RowOf(Thawed(lens), subs, user)
    {
      assert CellsOf(lens, subs, user) == map[] == CellsOf(Thawed(lens), subs, user);
    }
  }

  lemma {:induction false} FreshUser(users: set<UserId>) returns (above: UserId)
    ensures forall user | user in users :: user < above
  {
    if users == {} {
      above := 0;
    } else {
      var last :| last in users;
      var rest := FreshUser(users - {last});
      above := if last < rest then rest else last + 1;
      forall user | user in users
        ensures user < above
      {
        assert user != last ==> user in users - {last};
      }
    }
  }

  lemma FirstRow(lens: Lens, sub: Sub)
    requires Visible(lens, sub)
    ensures Users(lens, [sub]) == {sub.user}
    ensures RowOf(lens, [sub], sub.user) == RowStep(lens, EmptyRow(sub.user), sub)
  {
    RowOfStep(lens, [], sub, sub.user);
    AbsentRowIsEmpty(lens, [], sub.user);
    assert [] + [sub] == [sub];
  }

  lemma AcceptedShows(lens: Lens, sub: Sub)
    requires Visible(lens, sub) && sub.problem in lens.labels && sub.status == AC
    ensures
      var cells, tag := RowOf(lens, [sub], sub.user).cells, lens.labels[sub.problem];
      tag in cells && cells[tag].pending == if Masked(lens, sub) then 1 else 0
  {
    FirstRow(lens, sub);
  }

  // What a board shows of the one user who submitted something.
  lemma AcceptedOnBoard(inp: Input, lens: Lens, sub: Sub, board: seq<Row>) returns (i: nat)
    requires Visible(lens, sub) && sub.problem in lens.labels && sub.status == AC
    requires IsRanked(inp.mode, BoardRows(lens, inp.flags, [sub]), board)
    ensures i < |board| && board[i].user == sub.user
    ensures
      var tag := lens.labels[sub.problem];
      tag in board[i].cells && board[i].cells[tag].pending == if Masked(lens, sub) then 1 else 0
  {
    FirstRow(lens, sub);
    AcceptedShows(lens, sub);
    assert sub.user in Shown(board);
    i :| 0 <= i < |board| && board[i].user == sub.user;
    RowShown(inp.mode, lens, inp.flags, [sub], board, i);
  }

  // With a problem and the automatic freeze set in, a verdict that came later is missing.
  lemma MaskedVerdictMissing(inp: Input) returns (subs: seq<Sub>)
    requires ContestFrozen(inp.contest, inp.now) && AutoFrozen(inp) && LabelsOf(inp.links) != map[]
    ensures TrueBoard(inp, subs) != FinalBoard(inp, subs)
  {
    var user := FreshUser(Cheats(inp.flags));
    var problem :| problem in LabelsOf(inp.links);
    var sub := Sub(user, problem, AC, 0, inp.contest.freezeTime.value + 1, false);
    subs := [sub];
    var board, final := TrueBoard(inp, subs), FinalBoard(inp, subs);
    var i := AcceptedOnBoard(inp, TrueLens(inp), sub, board);
    var j := AcceptedOnBoard(inp, Thawed(LensOf(inp, {})), sub, final);
    if board == final {
      SameUserSameIndex(inp.mode, BoardRows(TrueLens(inp), inp.flags, subs), board, i, j);
    }
  }

  lemma SameUserSameIndex(mode: Mode, rows: map<UserId, Row>, board: seq<Row>, i: nat, j: nat)
    requires Filed(rows) && IsRanked(mode, rows, board) && i < |board| && j < |board| && board[i].user == board[j].user
    ensures i == j
  {
    RankedLists(mode, rows, board);
  }

  /** The board that the reveal set is taken from is the final board, whatever was submitted, if and
      only if the automatic freeze has not set in or there is no problem to solve. */
  lemma TrueBoardUnmaskedIff(inp: Input)
    requires ContestFrozen(inp.contest, inp.now)
    ensures (forall subs :: TrueBoard(inp, subs) == FinalBoard(inp, subs)) <==>
            (!AutoFrozen(inp) || LabelsOf(inp.links) == map[])
  {
    if AutoFrozen(inp) && LabelsOf(inp.links) != map[] {
      var subs := MaskedVerdictMissing(inp);
    } else {
      forall subs
        ensures TrueBoard(inp, subs) == FinalBoard(inp, subs)
      {
        if AutoFrozen(inp) {
          NoLabelsNoCells(TrueLens(inp), subs);
        }
      }
    }
  }

  // ---------------------------------------------------------------- boards of two users

  lemma OneRow(lens: Lens, sub: Sub)
    requires Visible(lens, sub)
    ensures Rows(lens, [sub]) == map[sub.user := RowStep(lens, EmptyRow(sub.user), sub)]
  {
    FirstRow(lens, sub);
  }

  lemma TwoRows(lens: Lens, x: Sub, y: Sub)
    requires x.user != y.user && Visible(lens, x) && Visible(lens, y)
    ensures Rows(lens, [x, y]) ==
            map[x.user := RowStep(lens, EmptyRow(x.user), x)][y.user := RowStep(lens, EmptyRow(y.user), y)]
  {
    OneRow(lens, x);
    assert y.user !in Rows(lens, [x]);
    AbsentRowIsEmpty(lens, [x], y.user);
    RowsStep(lens, [x], y);
    assert [x] + [y] == [x, y];
  }

  // ---------------------------------------------------------------- is the right user revealed?

  // The official user behind all others is the one a roll of one reveals.
  lemma LastIs(mode: Mode, rows: map<UserId, Row>, board: seq<Row>, user: UserId)
    requires Filed(rows) && IsRanked(mode, rows, board) && user in rows && Official(rows[user])
    requires forall v | v in rows && v != user && Official(rows[v]) :: RowLess(mode, rows[v], rows[user])
    ensures LastOfficial(board, 1) == {user}
  {
    assert user in Shown(board);
    var i :| 0 <= i < |board| && board[i].user == user;
    forall k | 0 <= k < |board| && k != i && Official(board[k])
      ensures k < i
    {
      OrderedBefore(mode, rows, board, k, i);
      if board[k].user == user {
        SameUserSameIndex(mode, rows, board, k, i);
      }
    }
    assert OfficialAfter(board, i) == {};
    forall k | 0 <= k < |board| && k != i
      ensures !InRoll(board, 1, k)
    {
      if Official(board[k]) {
        assert i in OfficialAfter(board, k);
      }
    }
    assert InRoll(board, 1, i);
  }

  // Who is official when two users without a flag have submitted something.
  lemma TwoOfficials(lens: Lens, flags: map<UserId, Flag>, x: Sub, y: Sub)
    requires x.user != y.user && Visible(lens, x) && Visible(lens, y) && x.user !in flags && y.user !in flags
    ensures
      var rows := BoardRows(lens, flags, [x, y]);
      && x.user in rows && rows[x.user] == RowStep(lens, EmptyRow(x.user), x)
      && y.user in rows && rows[y.user] == RowStep(lens, EmptyRow(y.user), y)
      && forall v | v in rows && v != x.user && v != y.user :: !Official(rows[v])
  {
    TwoRows(lens, x, y);
  }

  // The user with the lower id has nothing to show, and is last exactly if the other's AC is seen.
  lemma SeenOrNot(lens: Lens, x: Sub, y: Sub)
    requires x.user < y.user && x.problem in lens.labels && y.problem in lens.labels
    requires x.status == CE && x.score == 0 && y.status == AC && y.score == 1 && Masked(lens, x) == Masked(lens, y)
    ensures
      var p, q := RowStep(lens, EmptyRow(x.user), x), RowStep(lens, EmptyRow(y.user), y);
      && Official(p) && Official(q)
      && if Masked(lens, y) then RowLess(lens.mode, p, q) else RowLess(lens.mode, q, p)
  {
  }

  lemma LastOfTwo(lens: Lens, flags: map<UserId, Flag>, x: Sub, y: Sub, board: seq<Row>)
    requires Visible(lens, x) && Visible(lens, y) && x.user !in flags && y.user !in flags
    requires x.user < y.user && x.problem in lens.labels && y.problem in lens.labels
    requires x.status == CE && x.score == 0 && y.status == AC && y.score == 1 && Masked(lens, x) == Masked(lens, y)
    requires IsRanked(lens.mode, BoardRows(lens, flags, [x, y]), board)
    ensures LastOfficial(board, 1) == {if Masked(lens, y) then y.user else x.user}
  {
    TwoOfficials(lens, flags, x, y);
    SeenOrNot(lens, x, y);
    LastIs(lens.mode, BoardRows(lens, flags, [x, y]), board, if Masked(lens, y) then y.user else x.user);
  }

  // With a problem and the automatic freeze set in, the wrong user can be revealed.
  lemma OtherRevealed(inp: Input) returns (subs: seq<Sub>)
    requires ContestFrozen(inp.contest, inp.now) && AutoFrozen(inp) && LabelsOf(inp.links) != map[]
    ensures Revealed(inp, subs, 1) != LastOfficial(FinalBoard(inp, subs), 1)
  {
    var user := FreshUser(inp.flags.Keys);
    var problem :| problem in LabelsOf(inp.links);
    var late := inp.contest.freezeTime.value + 1;
    var x, y := Sub(user, problem, CE, 0, late, false), Sub(user + 1, problem, AC, 1, late, false);
    subs := [x, y];
    LastOfTwo(TrueLens(inp), inp.flags, x, y, TrueBoard(inp, subs));
    LastOfTwo(Thawed(LensOf(inp, {})), inp.flags, x, y, FinalBoard(inp, subs));
    assert user in {user} && user !in {user + 1};
  }

  /** The revealed users are the last official ones of the final board, whatever was submitted and
      however many are asked for, if and only if the automatic freeze has not set in or there is no
      problem to solve. */
  lemma RevealedAreLastIff(inp: Input)
    requires ContestFrozen(inp.contest, inp.now)
    ensures (forall subs, count :: Revealed(inp, subs, count) == LastOfficial(FinalBoard(inp, subs), count)) <==>
            (!AutoFrozen(inp) || LabelsOf(inp.links) == map[])
  {
    if AutoFrozen(inp) && LabelsOf(inp.links) != map[] {
      var subs := OtherRevealed(inp);
    } else {
      TrueBoardUnmaskedIff(inp);
      forall subs, count
        ensures Revealed(inp, subs, count) == LastOfficial(FinalBoard(inp, subs), count)
      {
        assert TrueBoard(inp, subs) == FinalBoard(inp, subs);
      }
    }
  }

  lemma TwoRanked(mode: Mode, a: Row, b: Row)
    requires a.user != b.user && a.rank == 0 && b.rank == 0 && Official(a) && Official(b) && RowLess(mode, a, b)
    ensures
      var rows, board := map[a.user := a][b.user := b], [a.(rank := 1), b.(rank := 2)];
      Ranked(mode, rows) == board && LastOfficial(board, 1) == {b.user}
  {
    var rows, board := map[a.user := a][b.user := b], [a.(rank := 1), b.(rank := 2)];
    assert board[0].user == a.user && board[1].user == b.user;
    assert IsRanked(mode, rows, board);
    RankingIsUnique(mode, rows, board, Ranked(mode, rows));
    assert OfficialAfter(board, 0) == {1} && OfficialAfter(board, 1) == {};
    assert LastOfficial(board, 1) == {board[1].user};
  }

  // What a single submission is worth on an IOI board.
  function Points(lens: Lens, sub: Sub): int {
    if sub.problem !in lens.labels || Masked(lens, sub) || sub.score < 0 then 0 else sub.score
  }

  lemma PointsAreTotal(lens: Lens, sub: Sub)
    requires lens.mode == IOI
    ensures RowStep(lens, EmptyRow(sub.user), sub).penaltyMS == Points(lens, sub)
  {
  }

  lemma NoFlags(rows: map<UserId, Row>)
    ensures Flagged(rows, map[]) == rows
  {
  }

  lemma TwoUserRows(lens: Lens, subs: seq<Sub>, x: Sub, y: Sub)
    requires x.user != y.user && Visible(lens, x) && Visible(lens, y) && (subs == [x, y] || subs == [y, x])
    ensures BoardRows(lens, map[], subs) ==
            map[x.user := RowStep(lens, EmptyRow(x.user), x)][y.user := RowStep(lens, EmptyRow(y.user), y)]
  {
    NoFlags(Rows(lens, subs));
    if subs == [x, y] {
      TwoRows(lens, x, y);
    } else {
      TwoRows(lens, y, x);
      SwapUpdates(x.user, RowStep(lens, EmptyRow(x.user), x), y.user, RowStep(lens, EmptyRow(y.user), y));
    }
  }

  lemma SwapUpdates(u: UserId, p: Row, v: UserId, q: Row)
    requires u != v
    ensures map[u := p][v := q] == map[v := q][u := p]
  {
  }

  // The IOI board of two users with a submission each, whichever was made first.
  lemma TwoUserBoard(lens: Lens, subs: seq<Sub>, x: Sub, y: Sub)
    requires lens.mode == IOI && Visible(lens, x) && Visible(lens, y) && (subs == [x, y] || subs == [y, x])
    requires Points(lens, x) > Points(lens, y) || (Points(lens, x) == Points(lens, y) && x.user < y.user)
    requires x.user != y.user
    ensures
      var board := Ranked(IOI, BoardRows(lens, map[], subs));
      && |board| == 2 && board[0].user == x.user && board[1].user == y.user
      && board[0].penaltyMS == Points(lens, x) && board[1].penaltyMS == Points(lens, y)
      && LastOfficial(board, 1) == {y.user}
  {
    TwoUserRows(lens, subs, x, y);
    PointsAreTotal(lens, x);
    PointsAreTotal(lens, y);
    TwoRanked(IOI, RowStep(lens, EmptyRow(x.user), x), RowStep(lens, EmptyRow(y.user), y));
  }

  // User 1 scored 10 before the automatic freeze, user 2 scored 20 after it: user 1 is last on the
  // final board, but user 2 is the one revealed.
  lemma AutomaticFreezeRevealsOther()
    ensures
      var inp := Input(IOI, Contest(0, 100, Some(50), true, false, false, None), [Link(1, "A")], map[], 60);
      var subs := [Sub(1, 1, WA, 10, 40, false), Sub(2, 1, WA, 20, 55, false)];
      && ContestFrozen(inp.contest, inp.now) && AutoFrozen(inp)
      && Revealed(inp, subs, 1) == {2} && LastOfficial(FinalBoard(inp, subs), 1) == {1}
  {
    var inp := Input(IOI, Contest(0, 100, Some(50), true, false, false, None), [Link(1, "A")], map[], 60);
    var x, y := Sub(1, 1, WA, 10, 40, false), Sub(2, 1, WA, 20, 55, false);
    assert LabelsOf(inp.links) == map[1 := "A"];
    assert LastOfficial(TrueBoard(inp, [x, y]), 1) == {2} by {
      TwoUserBoard(TrueLens(inp), [x, y], x, y);
    }
    assert LastOfficial(FinalBoard(inp, [x, y]), 1) == {1} by {
      TwoUserBoard(Thawed(LensOf(inp, {})), [x, y], y, x);
    }
  }

  // User 2 had 10 points before user 1 had them, and is listed second.
  lemma EarlierImproverSecond()
    ensures
      var inp := Input(IOI, Contest(0, 100, None, true, false, false, None), [Link(1, "A")], map[], 60);
      var board := Board(inp, [Sub(2, 1, WA, 10, 40, false), Sub(1, 1, WA, 10, 45, false)], 0);
      |board| == 2 && board[0].user == 1 && board[1].user == 2 && board[0].penaltyMS == board[1].penaltyMS == 10
  {
    var inp := Input(IOI, Contest(0, 100, None, true, false, false, None), [Link(1, "A")], map[], 60);
    var x, y := Sub(2, 1, WA, 10, 40, false), Sub(1, 1, WA, 10, 45, false);
    assert LabelsOf(inp.links) == map[1 := "A"];
    TwoUserBoard(LensOf(inp, {}), [x, y], y, x);
  }
}
