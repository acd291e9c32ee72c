/** computeStandings and computeIOIStandings (backend/internal/handler/contests.go) as a whole: labels,
    freeze, reveal set, scoring pass and ranking, against one specification of the board. */
module Standings {
  import opened Freeze
  import opened Options
  import opened Ordering
  import opened Ranking
  import opened Scoring

  datatype Link = Link(problem: ProblemId, name: string)

  // Everything a board depends on besides the submissions and the reveal count.
  datatype Input = Input(mode: Mode, contest: Contest, links: seq<Link>, flags: map<UserId, Flag>, now: int)

  // ---------------------------------------------------------------- specification

  function LabelsOf(links: seq<Link>): map<ProblemId, string> {
    if links == [] then map[]
    else
      var last := links[|links| - 1];
      LabelsOf(links[..|links| - 1])[last.problem := last.name]
  }

  function LensOf(inp: Input, revealed: set<UserId>): Lens {
    Lens(inp.mode, inp.contest.start, LabelsOf(inp.links), Cheats(inp.flags),
         if ContestFrozen(inp.contest, inp.now) then FreezePoint(inp.contest, inp.now) else None, revealed)
  }

  ghost function BoardRows(lens: Lens, flags: map<UserId, Flag>, subs: seq<Sub>): (rows: map<UserId, Row>)
    ensures Filed(rows)
  {
    Flagged(Rows(lens, subs), flags)
  }

  ghost function SomeList(rows: map<UserId, Row>, users: set<UserId>): seq<Row>
    requires users <= rows.Keys
  {
    if users == {} then []
    else
      var user :| user in users;
      SomeList(rows, users - {user}) + [rows[user]]
  }

  lemma {:induction false} SomeListShows(rows: map<UserId, Row>, users: set<UserId>)
    requires Filed(rows) && users <= rows.Keys
    ensures ListsAllBut(rows, rows.Keys - users, SomeList(rows, users))
  {
    if users == {} {
    } else {
      var user :| user in users && SomeList(rows, users) == SomeList(rows, users - {user}) + [rows[user]];
      SomeListShows(rows, users - {user});
      ListsOneMore(rows, rows.Keys - (users - {user}), SomeList(rows, users - {user}), user);
      assert rows.Keys - (users - {user}) - {user} == rows.Keys - users;
    }
  }

  lemma AllListed(rows: map<UserId, Row>)
    requires Filed(rows)
    ensures Lists(rows, SomeList(rows, rows.Keys))
  {
    SomeListShows(rows, rows.Keys);
  }

  lemma SortRows(mode: Mode, list: seq<Row>) returns (sorted: seq<Row>)
    ensures multiset(sorted) == multiset(list)
    ensures forall i, j | 0 <= i < j < |sorted| :: !RowLess(mode, sorted[j], sorted[i])
  {
    OrderIsStrictWeak(mode);
    SortSorts(Order(mode), list);
    sorted := Sort(Order(mode), list);
  }

  lemma RankedExists(mode: Mode, rows: map<UserId, Row>)
    requires Filed(rows)
    ensures exists out :: IsRanked(mode, rows, out)
  {
    AllListed(rows);
    var list := SomeList(rows, rows.Keys);
    var sorted := SortRows(mode, list);
    PermutedLists(rows, list, sorted);
    var out := seq(|sorted|, i requires 0 <= i < |sorted| => Numbered(sorted[i], i));
    NumberedIsRanked(mode, rows, sorted, out);
  }

  // The one ranking of some rows.
  ghost function Ranked(mode: Mode, rows: map<UserId, Row>): (out: seq<Row>)
    requires Filed(rows)
    ensures IsRanked(mode, rows, out)
  {
    RankedExists(mode, rows);
    var out :| IsRanked(mode, rows, out);
    out
  }

  function OfficialAfter(board: seq<Row>, i: int): set<int> { set k | 0 <= k < |board| && k > i && Official(board[k]) }

  predicate InRoll(board: seq<Row>, count: int, i: nat)
    requires i < |board|
  {
    Official(board[i]) && |OfficialAfter(board, i)| < count
  }

  // The official rows with fewer than count official rows below them.
  function LastOfficial(board: seq<Row>, count: int): set<UserId> {
    set i | 0 <= i < |board| && InRoll(board, count, i) :: board[i].user
  }

  // The contest the code takes the true final board from.
  function TrueContest(c: Contest): Contest { c.(freezeEnabled := true, manualFrozen := false) }

  ghost function TrueBoard(inp: Input, subs: seq<Sub>): seq<Row> {
    Ranked(inp.mode, BoardRows(LensOf(inp.(contest := TrueContest(inp.contest)), {}), inp.flags, subs))
  }

  ghost function Revealed(inp: Input, subs: seq<Sub>, count: int): set<UserId> {
    if ContestFrozen(inp.contest, inp.now) && count > 0 then LastOfficial(TrueBoard(inp, subs), count) else {}
  }

  /** The board: the ranking of the rows scored through the freeze, with the revealed users unmasked. */
  ghost function Board(inp: Input, subs: seq<Sub>, count: int): seq<Row> {
    Ranked(inp.mode, BoardRows(LensOf(inp, Revealed(inp, subs, count)), inp.flags, subs))
  }

  // ---------------------------------------------------------------- the code

  method BuildLabels(links: seq<Link>) returns (labels: map<ProblemId, string>)
    ensures labels == LabelsOf(links)
  {
    labels := map[];
    for i := 0 to |links|
      invariant labels == LabelsOf(links[..i])
    {
      assert links[..i + 1][..i] == links[..i];
      labels := labels[links[i].problem := links[i].name];
    }
    assert links[..|links|] == links;
  }

  lemma OfficialAfterStep(board: seq<Row>, i: nat)
    requires i < |board|
    ensures OfficialAfter(board, i - 1) == OfficialAfter(board, i) + if Official(board[i]) then {i} else {}
    ensures |OfficialAfter(board, i - 1)| == |OfficialAfter(board, i)| + if Official(board[i]) then 1 else 0
  {
  }

  // The revealed users among the rows from i on.
  function RevealedFrom(board: seq<Row>, count: int, i: int): set<UserId> {
    set k | 0 <= k < |board| && i <= k && InRoll(board, count, k) :: board[k].user
  }

  predicate DistinctUsers(board: seq<Row>) { forall i, j | 0 <= i < j < |board| :: board[i].user != board[j].user }

  lemma RevealedFromAdds(board: seq<Row>, count: nat, i: nat)
    requires i < |board|
    ensures RevealedFrom(board, count, i) ==
            RevealedFrom(board, count, i + 1) + if InRoll(board, count, i) then {board[i].user} else {}
    ensures DistinctUsers(board) ==> board[i].user !in RevealedFrom(board, count, i + 1)
  {
  }

  lemma RevealedFromSize(board: seq<Row>, count: nat, i: nat)
    requires i < |board| && DistinctUsers(board)
    ensures |RevealedFrom(board, count, i)| ==
            |RevealedFrom(board, count, i + 1)| + if InRoll(board, count, i) then 1 else 0
  {
    RevealedFromAdds(board, count, i);
  }

  /** As many rows are revealed as the roll asks for, or every official row when there are fewer. */
  lemma {:induction false} RollSize(board: seq<Row>, count: nat, i: nat)
    requires i <= |board| && DistinctUsers(board)
    ensures |RevealedFrom(board, count, i)| ==
            if |OfficialAfter(board, i - 1)| < count then |OfficialAfter(board, i - 1)| else count
    decreases |board| - i
  {
    if i == |board| {
      assert RevealedFrom(board, count, i) == {} && OfficialAfter(board, i - 1) == {};
    } else {
      RollSize(board, count, i + 1);
      RevealedFromSize(board, count, i);
      OfficialAfterStep(board, i);
    }
  }

  lemma RevealedFromStep(board: seq<Row>, count: nat, i: nat)
    requires i < |board| && DistinctUsers(board)
    requires |RevealedFrom(board, count, i + 1)| == |OfficialAfter(board, i)| < count
    ensures RevealedFrom(board, count, i) ==
            RevealedFrom(board, count, i + 1) + if Official(board[i]) then {board[i].user} else {}
    ensures |RevealedFrom(board, count, i)| == |OfficialAfter(board, i - 1)| <= count
  {
    OfficialAfterStep(board, i);
    RevealedFromAdds(board, count, i);
  }

  // The official rows further up are below the limit only if those further down are.
  lemma RevealedFull(board: seq<Row>, count: int, i: nat)
    requires i <= |board| && |OfficialAfter(board, i - 1)| >= count
    ensures RevealedFrom(board, count, 0) == RevealedFrom(board, count, i)
  {
    forall k | 0 <= k < i
      ensures |OfficialAfter(board, k)| >= count
    {
      SubsetSize(OfficialAfter(board, i - 1), OfficialAfter(board, k));
    }
  }

  // The bottom-up loop over the true board.
  method CollectRevealed(board: seq<Row>, count: nat) returns (revealed: set<UserId>)
    requires DistinctUsers(board)
    ensures revealed == LastOfficial(board, count)
  {
    revealed := {};
    var i := |board|;
    assert OfficialAfter(board, i - 1) == {};
    while i > 0 && |revealed| < count
      invariant 0 <= i <= |board|
      invariant revealed == RevealedFrom(board, count, i)
      invariant |revealed| == |OfficialAfter(board, i - 1)| <= count
    {
      i := i - 1;
      RevealedFromStep(board, count, i);
      if !board[i].cheated && !board[i].starred {
        revealed := revealed + {board[i].user};
      }
    }
    if i > 0 {
      RevealedFull(board, count, i);
    }
  }

  /** The whole computation yields exactly the specified board. */
  method ComputeStandings(inp: Input, subs: seq<Sub>, revealCount: nat) returns (board: seq<Row>)
    ensures board == Board(inp, subs, revealCount)
    decreases revealCount
  {
    var labels := BuildLabels(inp.links);
    var frozen := ContestFrozen(inp.contest, inp.now);
    var revealed: set<UserId> := {};
    if frozen && revealCount > 0 {
      var unfrozen := inp.contest.(freezeEnabled := true, manualFrozen := false);
      var trueRows := ComputeStandings(inp.(contest := unfrozen), subs, 0);
      RankedLists(inp.mode, BoardRows(LensOf(inp.(contest := unfrozen), {}), inp.flags, subs), trueRows);
      revealed := CollectRevealed(trueRows, revealCount);
    }
    var maskFrom := if frozen then FreezePoint(inp.contest, inp.now) else None;
    var lens := Lens(inp.mode, inp.contest.start, labels, Cheats(inp.flags), maskFrom, revealed);
    ghost var rows := BoardRows(lens, inp.flags, subs);
    if inp.mode == IOI {
      var scored := ScoreIOI(lens, subs);
      board := RankRowsIOI(scored, inp.flags);
    } else {
      var scored := ScoreACM(lens, subs);
      board := RankRows(scored, inp.flags);
    }
    RankingIsUnique(inp.mode, rows, board, Ranked(inp.mode, rows));
  }
}
