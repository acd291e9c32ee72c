/** What the board as a whole depends on: not the order of independent submissions, not the verdicts
    the freeze hides and, on an IOI board, not the order of the submissions at all. */
module BoardLaws {
  import opened Freeze
  import opened Options
  import Ordering
  import opened Ranking
  import opened Scoring
  import opened Standings
  import opened BoardCells

  // ---------------------------------------------------------------- same cells, same board

  // Two lists with the same submissions in each cell, in the same order there.
  ghost predicate SameCells(labels: map<ProblemId, string>, cheats: set<UserId>, a: seq<Sub>, b: seq<Sub>) {
    var lens := Lens(ACM, 0, labels, cheats, None, {});
    multiset(a) == multiset(b) &&
    forall user, tag :: CellSubs(lens, a, user, tag) == CellSubs(lens, b, user, tag)
  }

  // Which submissions a cell is about depends on the labels and the flags only.
  lemma {:induction false} CellSubsLens(lens: Lens, other: Lens, subs: seq<Sub>, user: UserId, tag: string)
    requires lens.labels == other.labels && lens.cheats == other.cheats
    ensures CellSubs(lens, subs, user, tag) == CellSubs(other, subs, user, tag)
  {
    if subs != [] {
      CellSubsLens(lens, other, subs[..|subs| - 1], user, tag);
    }
  }

  lemma SameMembersSameUsers(lens: Lens, a: seq<Sub>, b: seq<Sub>, user: UserId)
    requires multiset(a) == multiset(b)
    ensures Users(lens, a) == Users(lens, b) && Tried(lens, a, user) == Tried(lens, b, user)
  {
    Ordering.SameMembers(a, b);
  }

  // Rows agree when users, labels and the folded cells do.
  lemma SameFoldsSameRows(lens: Lens, a: seq<Sub>, b: seq<Sub>)
    requires Users(lens, a) == Users(lens, b)
    requires forall user :: Tried(lens, a, user) == Tried(lens, b, user)
    requires forall user, tag :: CellAt(lens, a, user, tag) == CellAt(lens, b, user, tag)
    ensures Rows(lens, a) == Rows(lens, b)
  {
    forall user | user in Users(lens, a)
      ensures RowOf(lens, a, user) == RowOf(lens, b, user)
    {
      assert CellsOf(lens, a, user) == CellsOf(lens, b, user);
    }
  }

  lemma SameCellsSameRows(lens: Lens, a: seq<Sub>, b: seq<Sub>)
    requires SameCells(lens.labels, lens.cheats, a, b)
    ensures Rows(lens, a) == Rows(lens, b)
  {
    var plain := Lens(ACM, 0, lens.labels, lens.cheats, None, {});
    forall user
      ensures Users(lens, a) == Users(lens, b) && Tried(lens, a, user) == Tried(lens, b, user)
    {
      SameMembersSameUsers(lens, a, b, user);
    }
    SameMembersSameUsers(lens, a, b, 0);
    forall user, tag
      ensures CellAt(lens, a, user, tag) == CellAt(lens, b, user, tag)
    {
      CellSubsLens(lens, plain, a, user, tag);
      CellSubsLens(lens, plain, b, user, tag);
    }
    SameFoldsSameRows(lens, a, b);
  }

  // A lens of this contest, from whichever of its instants it masks.
  predicate IsLensOf(lens: Lens, inp: Input) {
    && lens.labels == LabelsOf(inp.links) && lens.cheats == Cheats(inp.flags) && lens.mode == inp.mode
    && (lens.maskFrom.Some? ==> Instant(inp.contest, lens.maskFrom.value))
  }

  // An instant the contest may mask from.
  predicate Instant(c: Contest, at: int) { c.freezeTime == Some(at) || c.manualFrozenAt == Some(at) }

  // The board is a function of the rows each lens sees.
  lemma SameRowsSameBoard(inp: Input, a: seq<Sub>, b: seq<Sub>, count: int)
    requires forall lens: Lens | IsLensOf(lens, inp) :: Rows(lens, a) == Rows(lens, b)
    ensures Board(inp, a, count) == Board(inp, b, count)
  {
    var trueLens := LensOf(inp.(contest := TrueContest(inp.contest)), {});
    assert Rows(trueLens, a) == Rows(trueLens, b);
    var lens := LensOf(inp, Revealed(inp, a, count));
    assert Rows(lens, a) == Rows(lens, b);
  }

  /** Any reordering of the submissions that keeps the order within each cell gives the same board,
      reveal set and ranks included. */
  lemma ReorderKeepsBoard(inp: Input, a: seq<Sub>, b: seq<Sub>, count: int)
    requires SameCells(LabelsOf(inp.links), Cheats(inp.flags), a, b)
    ensures Board(inp, a, count) == Board(inp, b, count)
  {
    forall lens: Lens | IsLensOf(lens, inp)
      ensures Rows(lens, a) == Rows(lens, b)
    {
      SameCellsSameRows(lens, a, b);
    }
    SameRowsSameBoard(inp, a, b, count);
  }

  // ---------------------------------------------------------------- IOI: any permutation

  lemma StepsCommute(lens: Lens, cell: Cell, x: Sub, y: Sub)
    requires lens.mode == IOI
    ensures CellStep(lens, CellStep(lens, cell, x), y) == CellStep(lens, CellStep(lens, cell, y), x)
  {
  }

  // Any submission may as well have come last.
  lemma {:induction false} FoldPick(lens: Lens, tag: string, subs: seq<Sub>, i: nat)
    requires lens.mode == IOI && i < |subs|
    ensures Fold(lens, tag, subs) == CellStep(lens, Fold(lens, tag, subs[..i] + subs[i + 1..]), subs[i])
  {
    var n := |subs| - 1;
    if i == n {
      assert subs[..i] + subs[i + 1..] == subs[..n];
    } else {
      var rest := subs[..i] + subs[i + 1..];
      assert rest[..n - 1] == subs[..n][..i] + subs[..n][i + 1..] && rest[n - 1] == subs[n];
      FoldPick(lens, tag, subs[..n], i);
      StepsCommute(lens, Fold(lens, tag, rest[..n - 1]), subs[i], subs[n]);
    }
  }

  lemma {:induction false} FoldPermuted(lens: Lens, tag: string, a: seq<Sub>, b: seq<Sub>)
    requires lens.mode == IOI && multiset(a) == multiset(b)
    ensures Fold(lens, tag, a) == Fold(lens, tag, b)
  {
    Ordering.SameMembers(a, b);
    if a != [] {
      var last := a[|a| - 1];
      assert last in b;
      var i :| 0 <= i < |b| && b[i] == last;
      Ordering.RemoveBoth(a, b, i);
      FoldPermuted(lens, tag, a[..|a| - 1], b[..i] + b[i + 1..]);
      FoldPick(lens, tag, b, i);
    }
  }

  lemma {:induction false} CellSubsCount(lens: Lens, subs: seq<Sub>, user: UserId, tag: string, x: Sub)
    ensures multiset(CellSubs(lens, subs, user, tag))[x] ==
            if InCell(lens, x, user, tag) then multiset(subs)[x] else 0
  {
    if subs != [] {
      var n := |subs| - 1;
      CellSubsCount(lens, subs[..n], user, tag, x);
      assert subs == subs[..n] + [subs[n]];
    }
  }

  /** On an IOI board the order of the submissions does not matter at all. */
  lemma IOIPermutationKeepsBoard(inp: Input, a: seq<Sub>, b: seq<Sub>, count: int)
    requires inp.mode == IOI && multiset(a) == multiset(b)
    ensures Board(inp, a, count) == Board(inp, b, count)
  {
    forall lens: Lens | IsLensOf(lens, inp)
      ensures Rows(lens, a) == Rows(lens, b)
    {
      IOISameRows(lens, a, b);
    }
    SameRowsSameBoard(inp, a, b, count);
  }

  lemma IOISameRows(lens: Lens, a: seq<Sub>, b: seq<Sub>)
    requires lens.mode == IOI && multiset(a) == multiset(b)
    ensures Rows(lens, a) == Rows(lens, b)
  {
    forall user
      ensures Users(lens, a) == Users(lens, b) && Tried(lens, a, user) == Tried(lens, b, user)
    {
      SameMembersSameUsers(lens, a, b, user);
    }
    SameMembersSameUsers(lens, a, b, 0);
    forall user, tag
      ensures CellAt(lens, a, user, tag) == CellAt(lens, b, user, tag)
    {
      var sa, sb := CellSubs(lens, a, user, tag), CellSubs(lens, b, user, tag);
      forall x
        ensures multiset(sa)[x] == multiset(sb)[x]
      {
        CellSubsCount(lens, a, user, tag, x);
        CellSubsCount(lens, b, user, tag, x);
      }
      FoldPermuted(lens, tag, sa, sb);
    }
    SameFoldsSameRows(lens, a, b);
  }

  // ---------------------------------------------------------------- IOI: no time counts

  // The same submission, made at another time that the freeze treats alike.
  predicate SameButTime(c: Contest, x: Sub, y: Sub) {
    && y == x.(created := y.created)
    && (c.freezeTime.Some? ==> (x.created > c.freezeTime.value <==> y.created > c.freezeTime.value))
    && (c.manualFrozenAt.Some? ==> (x.created > c.manualFrozenAt.value <==> y.created > c.manualFrozenAt.value))
  }

  ghost predicate Retimed(c: Contest, a: seq<Sub>, b: seq<Sub>) {
    |a| == |b| && forall i | 0 <= i < |a| :: SameButTime(c, a[i], b[i])
  }

  lemma {:induction false} FoldRetimed(lens: Lens, inp: Input, tag: string, a: seq<Sub>, b: seq<Sub>)
    requires lens.mode == IOI && IsLensOf(lens, inp) && Retimed(inp.contest, a, b)
    ensures Fold(lens, tag, a) == Fold(lens, tag, b)
  {
    if a != [] {
      FoldRetimed(lens, inp, tag, a[..|a| - 1], b[..|b| - 1]);
    }
  }

  lemma {:induction false} CellSubsRetimed(lens: Lens, c: Contest, a: seq<Sub>, b: seq<Sub>, user: UserId, tag: string)
    requires Retimed(c, a, b)
    ensures Retimed(c, CellSubs(lens, a, user, tag), CellSubs(lens, b, user, tag))
  {
    if a != [] {
      CellSubsRetimed(lens, c, a[..|a| - 1], b[..|b| - 1], user, tag);
    }
  }

  lemma RetimedUsers(lens: Lens, c: Contest, a: seq<Sub>, b: seq<Sub>, user: UserId)
    requires Retimed(c, a, b)
    ensures Users(lens, a) == Users(lens, b) && Tried(lens, a, user) == Tried(lens, b, user)
  {
  }

  /** The comment on the IOI board promises that ties go to the earlier improvement.  But the freeze
      aside, no time of any submission has an influence on the board. */
  lemma IOITimesAreIgnored(inp: Input, a: seq<Sub>, b: seq<Sub>, count: int)
    requires inp.mode == IOI && Retimed(inp.contest, a, b)
    ensures Board(inp, a, count) == Board(inp, b, count)
  {
    forall lens: Lens | IsLensOf(lens, inp)
      ensures Rows(lens, a) == Rows(lens, b)
    {
      RetimedRows(lens, inp, a, b);
    }
    SameRowsSameBoard(inp, a, b, count);
  }

  lemma RetimedRows(lens: Lens, inp: Input, a: seq<Sub>, b: seq<Sub>)
    requires lens.mode == IOI && IsLensOf(lens, inp) && Retimed(inp.contest, a, b)
    ensures Rows(lens, a) == Rows(lens, b)
  {
    forall user
      ensures Users(lens, a) == Users(lens, b) && Tried(lens, a, user) == Tried(lens, b, user)
    {
      RetimedUsers(lens, inp.contest, a, b, user);
    }
    RetimedUsers(lens, inp.contest, a, b, 0);
    forall user, tag
      ensures CellAt(lens, a, user, tag) == CellAt(lens, b, user, tag)
    {
      CellSubsRetimed(lens, inp.contest, a, b, user, tag);
      FoldRetimed(lens, inp, tag, CellSubs(lens, a, user, tag), CellSubs(lens, b, user, tag));
    }
    SameFoldsSameRows(lens, a, b);
  }

  lemma IOITies(rows: map<UserId, Row>, out: seq<Row>, i: nat, j: nat)
    requires IsRanked(IOI, rows, out) && i < |out| && j < |out|
    ensures Tier(out[i]) == Tier(out[j]) && out[i].penaltyMS == out[j].penaltyMS ==>
              (i < j <==> out[i].user < out[j].user)
  {
    assert i < j ==> RowLess(IOI, out[i], out[j]);
    assert j < i ==> RowLess(IOI, out[j], out[i]);
  }

  /** Within a tier equal totals are ordered by user id. */
  lemma IOITiesById(inp: Input, subs: seq<Sub>, count: int, i: nat, j: nat)
    requires inp.mode == IOI && i < |Board(inp, subs, count)| && j < |Board(inp, subs, count)|
    ensures
      var x, y := Board(inp, subs, count)[i], Board(inp, subs, count)[j];
      Tier(x) == Tier(y) && x.penaltyMS == y.penaltyMS ==> (i < j <==> x.user < y.user)
  {
    IOITies(BoardRows(LensOf(inp, Revealed(inp, subs, count)), inp.flags, subs), Board(inp, subs, count), i, j);
  }

  // ---------------------------------------------------------------- the freeze hides verdicts

  // The same submission, its status and score aside.
  predicate SameAttempt(x: Sub, y: Sub) { y == x.(status := y.status, score := y.score) }

  // As far as one user's row goes, the lists differ only in what is masked.
  ghost predicate Twins(lens: Lens, a: seq<Sub>, b: seq<Sub>, user: UserId) {
    |a| == |b| && forall i | 0 <= i < |a| ::
      SameAttempt(a[i], b[i]) && (a[i].user == user ==> a[i] == b[i] || Masked(lens, a[i]))
  }

  lemma {:induction false} FoldTwins(lens: Lens, tag: string, a: seq<Sub>, b: seq<Sub>)
    requires |a| == |b| && forall i | 0 <= i < |a| :: SameAttempt(a[i], b[i]) && (a[i] == b[i] || Masked(lens, a[i]))
    ensures Fold(lens, tag, a) == Fold(lens, tag, b)
  {
    if a != [] {
      FoldTwins(lens, tag, a[..|a| - 1], b[..|b| - 1]);
    }
  }

  lemma {:induction false} CellSubsTwins(lens: Lens, a: seq<Sub>, b: seq<Sub>, user: UserId, tag: string)
    requires Twins(lens, a, b, user)
    ensures
      var s, t := CellSubs(lens, a, user, tag), CellSubs(lens, b, user, tag);
      |s| == |t| && forall i | 0 <= i < |s| :: SameAttempt(s[i], t[i]) && (s[i] == t[i] || Masked(lens, s[i]))
  {
    if a != [] {
      var n := |a| - 1;
      CellSubsTwins(lens, a[..n], b[..n], user, tag);
    }
  }

  lemma TwinUsers(lens: Lens, a: seq<Sub>, b: seq<Sub>, user: UserId)
    requires Twins(lens, a, b, user)
    ensures Users(lens, a) == Users(lens, b) && Tried(lens, a, user) == Tried(lens, b, user)
  {
  }

  /** For a fixed reveal set, the row of a user (cells and totals) depends on no verdict or score that
      is masked for that user; other users' submissions may differ in any verdict or score. */
  lemma MaskedVerdictsStayHidden(lens: Lens, a: seq<Sub>, b: seq<Sub>, user: UserId)
    requires Twins(lens, a, b, user)
    ensures RowOf(lens, a, user) == RowOf(lens, b, user)
  {
    TwinUsers(lens, a, b, user);
    forall tag
      ensures CellAt(lens, a, user, tag) == CellAt(lens, b, user, tag)
    {
      CellSubsTwins(lens, a, b, user, tag);
      FoldTwins(lens, tag, CellSubs(lens, a, user, tag), CellSubs(lens, b, user, tag));
    }
    assert CellsOf(lens, a, user) == CellsOf(lens, b, user);
  }

  /** With nothing revealed, two contests that differ only in verdicts and scores submitted after the
      freeze point show the very same board: cells, totals, order and ranks, in both modes. */
  lemma FreezeHidesVerdicts(inp: Input, a: seq<Sub>, b: seq<Sub>)
    requires |a| == |b| && forall i | 0 <= i < |a| ::
               SameAttempt(a[i], b[i]) && (a[i] == b[i] || Masked(LensOf(inp, {}), a[i]))
    ensures Board(inp, a, 0) == Board(inp, b, 0)
  {
    var lens := LensOf(inp, {});
    TwinUsers(lens, a, b, 0);
    forall user | user in Users(lens, a)
      ensures RowOf(lens, a, user) == RowOf(lens, b, user)
    {
      MaskedVerdictsStayHidden(lens, a, b, user);
    }
    assert Rows(lens, a) == Rows(lens, b);
  }

  // ---------------------------------------------------------------- freezing only hides, on the board

  // The board the same reveal set would show without the freeze.
  ghost function WithoutFreeze(inp: Input, subs: seq<Sub>, count: int): seq<Row> {
    Ranked(inp.mode, BoardRows(Thawed(LensOf(inp, Revealed(inp, subs, count))), inp.flags, subs))
  }

  lemma SameUsersWithoutFreeze(inp: Input, subs: seq<Sub>, count: int)
    ensures Shown(Board(inp, subs, count)) == Shown(WithoutFreeze(inp, subs, count))
  {
    ThawedCells(LensOf(inp, Revealed(inp, subs, count)), subs, 0, "");
  }

  // What a board shows of a user is the user's row, flags and number aside.
  lemma RowShown(mode: Mode, lens: Lens, flags: map<UserId, Flag>, subs: seq<Sub>, out: seq<Row>, i: nat)
    requires IsRanked(mode, BoardRows(lens, flags, subs), out) && i < |out|
    ensures
      var r := RowOf(lens, subs, out[i].user);
      out[i].cells == r.cells && out[i].solved == r.solved && out[i].penaltyMS == r.penaltyMS
  {
    if out[i].user !in Users(lens, subs) {
      AbsentRowIsEmpty(lens, subs, out[i].user);
    }
  }

  ghost predicate RowHides(frozen: Row, thawed: Row) {
    && thawed.cells.Keys == frozen.cells.Keys
    && (forall tag | tag in frozen.cells :: Hides(frozen.cells[tag], thawed.cells[tag]))
    && frozen.solved <= thawed.solved
  }

  ghost predicate IOIRowHides(frozen: Row, thawed: Row) {
    && thawed.cells.Keys == frozen.cells.Keys
    && (forall tag | tag in frozen.cells :: frozen.cells[tag].solvedMS <= thawed.cells[tag].solvedMS)
    && frozen.penaltyMS <= thawed.penaltyMS
  }

  lemma RowOfHides(lens: Lens, subs: seq<Sub>, user: UserId)
    ensures
      var frozen, thawed := RowOf(lens, subs, user), RowOf(Thawed(lens), subs, user);
      && (lens.mode == ACM && CellsMaskedLast(lens, subs, user) ==> RowHides(frozen, thawed))
      && (lens.mode == IOI ==> IOIRowHides(frozen, thawed))
  {
    ThawedCells(lens, subs, user, "");
    if user !in Users(lens, subs) {
      AbsentRowIsEmpty(lens, subs, user);
      AbsentRowIsEmpty(Thawed(lens), subs, user);
    } else if lens.mode == IOI {
      IOIFreezeOnlyHides(lens, subs, user);
    } else if CellsMaskedLast(lens, subs, user) {
      FreezeOnlyHides(lens, subs, user);
    }
  }

  /** On an ACM board where no cell has a masked submission before a visible one, so with submissions
      in order of creation, the frozen board shows the users of the thawed one; every cell it shows as
      solved is the same there, and no row has more solved. */
  lemma FrozenBoardHides(inp: Input, subs: seq<Sub>, count: int)
    requires inp.mode == ACM
    requires || Chronological(subs)
             || forall user :: CellsMaskedLast(LensOf(inp, Revealed(inp, subs, count)), subs, user)
    ensures
      var frozen, thawed := Board(inp, subs, count), WithoutFreeze(inp, subs, count);
      && Shown(frozen) == Shown(thawed)
      && forall i, j | 0 <= i < |frozen| && 0 <= j < |thawed| && frozen[i].user == thawed[j].user ::
           RowHides(frozen[i], thawed[j])
  {
    var lens := LensOf(inp, Revealed(inp, subs, count));
    var frozen, thawed := Board(inp, subs, count), WithoutFreeze(inp, subs, count);
    SameUsersWithoutFreeze(inp, subs, count);
    if Chronological(subs) {
      ChronologicalCells(lens, subs);
    }
    forall i, j | 0 <= i < |frozen| && 0 <= j < |thawed| && frozen[i].user == thawed[j].user
      ensures RowHides(frozen[i], thawed[j])
    {
      RowShown(inp.mode, lens, inp.flags, subs, frozen, i);
      RowShown(inp.mode, Thawed(lens), inp.flags, subs, thawed, j);
      RowOfHides(lens, subs, frozen[i].user);
    }
  }

  // No problem and no total more than without the freeze.
  ghost predicate SolvesNoMore(frozen: Row, thawed: Row) {
    && thawed.cells.Keys == frozen.cells.Keys
    && (forall tag | tag in frozen.cells :: frozen.cells[tag].solved ==> thawed.cells[tag].solved)
    && frozen.solved <= thawed.solved
  }

  lemma RowSolvesNoMore(lens: Lens, subs: seq<Sub>, user: UserId)
    requires lens.mode == ACM
    ensures SolvesNoMore(RowOf(lens, subs, user), RowOf(Thawed(lens), subs, user))
  {
    ThawedCells(lens, subs, user, "");
    if user in Users(lens, subs) {
      FreezeAddsNoSolve(lens, subs, user);
    } else {
      AbsentRowIsEmpty(lens, subs, user);
      AbsentRowIsEmpty(Thawed(lens), subs, user);
    }
  }

  /** On an ACM board, whatever the order, the frozen board shows the users of the thawed one, and in no
      row more is solved. */
  lemma FrozenBoardSolvesNoMore(inp: Input, subs: seq<Sub>, count: int)
    requires inp.mode == ACM
    ensures
      var frozen, thawed := Board(inp, subs, count), WithoutFreeze(inp, subs, count);
      && Shown(frozen) == Shown(thawed)
      && forall i, j | 0 <= i < |frozen| && 0 <= j < |thawed| && frozen[i].user == thawed[j].user ::
           SolvesNoMore(frozen[i], thawed[j])
  {
    var lens := LensOf(inp, Revealed(inp, subs, count));
    var frozen, thawed := Board(inp, subs, count), WithoutFreeze(inp, subs, count);
    SameUsersWithoutFreeze(inp, subs, count);
    forall i, j | 0 <= i < |frozen| && 0 <= j < |thawed| && frozen[i].user == thawed[j].user
      ensures SolvesNoMore(frozen[i], thawed[j])
    {
      RowShown(inp.mode, lens, inp.flags, subs, frozen, i);
      RowShown(inp.mode, Thawed(lens), inp.flags, subs, thawed, j);
      RowSolvesNoMore(lens, subs, frozen[i].user);
    }
  }

  /** On an IOI board, whatever the order, no score and no total the frozen board shows exceeds the
      thawed one. */
  lemma FrozenIOIBoardHides(inp: Input, subs: seq<Sub>, count: int)
    requires inp.mode == IOI
    ensures
      var frozen, thawed := Board(inp, subs, count), WithoutFreeze(inp, subs, count);
      && Shown(frozen) == Shown(thawed)
      && forall i, j | 0 <= i < |frozen| && 0 <= j < |thawed| && frozen[i].user == thawed[j].user ::
           IOIRowHides(frozen[i], thawed[j])
  {
    var lens := LensOf(inp, Revealed(inp, subs, count));
    var frozen, thawed := Board(inp, subs, count), WithoutFreeze(inp, subs, count);
    SameUsersWithoutFreeze(inp, subs, count);
    forall i, j | 0 <= i < |frozen| && 0 <= j < |thawed| && frozen[i].user == thawed[j].user
      ensures IOIRowHides(frozen[i], thawed[j])
    {
      RowShown(inp.mode, lens, inp.flags, subs, frozen, i);
      RowShown(inp.mode, Thawed(lens), inp.flags, subs, thawed, j);
      RowOfHides(lens, subs, frozen[i].user);
    }
  }

  // The board with nothing masked.
  ghost function FinalBoard(inp: Input, subs: seq<Sub>): seq<Row> {
    Ranked(inp.mode, BoardRows(Thawed(LensOf(inp, {})), inp.flags, subs))
  }

  // A board that is not frozen masks nothing, so everyone's verdicts count.
  lemma ThawedBoard(inp: Input, subs: seq<Sub>, count: int)
    requires !ContestFrozen(inp.contest, inp.now)
    ensures Board(inp, subs, count) == FinalBoard(inp, subs)
  {
  }
}
