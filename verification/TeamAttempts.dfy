/** The attempts of a team cell (backend/internal/handler/contests.go, teamStandings): what the merge
    counts, when that is the members' least number, and when the order of the members matters. */
module TeamAttempts {
  import opened Ordering
  import opened Scoring
  import opened Teams

  // ---------------------------------------------------------------- sums over cells

  function Sum(cells: seq<Cell>, f: Cell -> nat): nat {
    if cells == [] then 0 else Sum(cells[..|cells| - 1], f) + f(cells[|cells| - 1])
  }

  function Attempts(c: Cell): nat { c.attempts }

  function Unsolved(c: Cell): nat { if c.solved then 0 else 1 }

  lemma {:induction false} SumConcat(a: seq<Cell>, b: seq<Cell>, f: Cell -> nat)
    ensures Sum(a + b, f) == Sum(a, f) + Sum(b, f)
  {
    if b == [] {
      assert a + b == a;
    } else {
      var n := |b| - 1;
      assert (a + b)[..|a| + n] == a + b[..n];
      SumConcat(a, b[..n], f);
    }
  }

  lemma SumOne(c: Cell, f: Cell -> nat)
    ensures Sum([c], f) == f(c)
  {
    assert [c][..0] == [];
  }

  // Sums do not depend on the order.
  lemma {:induction false} SumPermuted(a: seq<Cell>, b: seq<Cell>, f: Cell -> nat)
    requires multiset(a) == multiset(b)
    ensures Sum(a, f) == Sum(b, f)
  {
    SameMembers(a, b);
    if a != [] {
      var n := |a| - 1;
      assert a[n] in b;
      var i :| 0 <= i < |b| && b[i] == a[n];
      RemoveBoth(a, b, i);
      SumPermuted(a[..n], b[..i] + b[i + 1..], f);
      assert b == b[..i] + [b[i]] + b[i + 1..];
      SumConcat(b[..i] + [b[i]], b[i + 1..], f);
      SumConcat(b[..i], [b[i]], f);
      SumConcat(b[..i], b[i + 1..], f);
      SumOne(b[i], f);
    }
  }

  lemma {:induction false} SumAtLeast(cells: seq<Cell>, f: Cell -> nat, i: nat)
    requires i < |cells|
    ensures f(cells[i]) <= Sum(cells, f)
    ensures Sum(cells, f) == f(cells[i]) ==> forall j | 0 <= j < |cells| && j != i :: f(cells[j]) == 0
  {
    var n := |cells| - 1;
    if i < n {
      SumAtLeast(cells[..n], f, i);
    } else {
      forall j | 0 <= j < n && Sum(cells[..n], f) == 0
        ensures f(cells[j]) == 0
      {
        SumAtLeast(cells[..n], f, j);
      }
    }
  }

  lemma {:induction false} SumOfZeros(cells: seq<Cell>, f: Cell -> nat)
    requires forall c | c in cells :: f(c) == 0
    ensures Sum(cells, f) == 0
  {
    if cells != [] {
      SumOfZeros(cells[..|cells| - 1], f);
    }
  }

  // ---------------------------------------------------------------- the attempts of a merged cell

  // How many cells come before the first solved one.
  function Lead(cells: seq<Cell>): (k: nat)
    ensures k <= |cells| && (forall i | 0 <= i < k :: !cells[i].solved) && (k < |cells| ==> cells[k].solved)
  {
    if cells == [] || cells[0].solved then 0 else 1 + Lead(cells[1..])
  }

  lemma LeadIs(cells: seq<Cell>, k: nat)
    requires k <= |cells| && (forall i | 0 <= i < k :: !cells[i].solved) && (k < |cells| ==> cells[k].solved)
    ensures Lead(cells) == k
  {
  }

  // The attempts of the first cell if it is solved, else those of all cells before the first solved one.
  function AttemptsOf(cells: seq<Cell>): nat
    requires cells != []
  {
    if cells[0].solved then cells[0].attempts else Sum(cells[..Lead(cells)], Attempts)
  }

  /** What the merge counts, whatever the members' cells are. */
  lemma {:induction false} MergedAttempts(cells: seq<Cell>)
    requires cells != []
    ensures Merged(cells).attempts == AttemptsOf(cells)
  {
    var n := |cells| - 1;
    if n == 0 {
      SumOne(cells[0], Attempts);
      assert cells[..1] == [cells[0]];
    } else {
      var init, k := cells[..n], Lead(cells);
      MergedAttempts(init);
      MergedIsEarliest(init);
      if k < n {
        LeadIs(init, k);
        assert init[..k] == cells[..k];
        assert init[k].solved;
      } else {
        LeadIs(init, n);
        assert init[..n] == init && cells[..n] == init;
        if k > n {
          assert cells[..k] == cells;
        }
      }
    }
  }

  predicate IsLeast(a: nat, cells: seq<Cell>) {
    (forall c | c in cells :: a <= c.attempts) && exists c | c in cells :: c.attempts == a
  }

  predicate AllZero(cells: seq<Cell>) { forall c | c in cells :: c.attempts == 0 }

  /** The promised least number of attempts comes out exactly when the first member has the least and
      at most one member is listed before the first who solved it, or none of those has an attempt. */
  lemma LeastAttemptsIff(cells: seq<Cell>)
    requires cells != []
    ensures
      IsLeast(Merged(cells).attempts, cells) <==>
      IsLeast(cells[0].attempts, cells) && (Lead(cells) <= 1 || AllZero(cells[..Lead(cells)]))
  {
    MergedAttempts(cells);
    var k := Lead(cells);
    var lead := cells[..k];
    if k == 1 {
      SumOne(cells[0], Attempts);
      assert lead == [cells[0]];
    } else if k > 1 {
      SumAtLeast(lead, Attempts, 0);
      SumAtLeast(lead, Attempts, 1);
      assert lead[0] == cells[0] && lead[1] == cells[1] && cells[1] in cells;
      if AllZero(lead) {
        SumOfZeros(lead, Attempts);
        assert lead[0] in lead;
      }
    }
    assert cells[0] in cells;
  }

  // For two members who both solved it, one order gives the least number and the other does not.
  lemma LeastAttemptsFail()
    ensures
      var x, y := Cell("A", 1, 100, 0, true), Cell("A", 5, 50, 0, true);
      Merged([x, y]).attempts == 1 && Merged([y, x]).attempts == 5
  {
    var x, y := Cell("A", 1, 100, 0, true), Cell("A", 5, 50, 0, true);
    assert [x, y][..1] == [x] && [y, x][..1] == [y];
  }

  // ---------------------------------------------------------------- the order of the members

  // Every order of the members gives the same number.
  ghost predicate OrderFree(cells: seq<Cell>) {
    forall p | multiset(p) == multiset(cells) :: Merged(p).attempts == Merged(cells).attempts
  }

  // Nobody solved it; or all have equally many attempts, and at most one did not solve it or none has any.
  predicate Even(cells: seq<Cell>)
    requires cells != []
  {
    || (forall c | c in cells :: !c.solved)
    || ((forall c | c in cells :: c.attempts == cells[0].attempts) &&
        (Sum(cells, Unsolved) <= 1 || cells[0].attempts == 0))
  }

  lemma NobodySolved(p: seq<Cell>)
    requires p != [] && forall c | c in p :: !c.solved
    ensures Merged(p).attempts == Sum(p, Attempts)
  {
    MergedAttempts(p);
    LeadIs(p, |p|);
    assert p[..|p|] == p;
  }

  lemma {:induction false} AllUnsolved(cells: seq<Cell>)
    requires forall i | 0 <= i < |cells| :: !cells[i].solved
    ensures Sum(cells, Unsolved) == |cells|
  {
    if cells != [] {
      AllUnsolved(cells[..|cells| - 1]);
    }
  }

  lemma EqualAttempts(p: seq<Cell>, v: nat)
    requires p != [] && (forall c | c in p :: c.attempts == v) && (Sum(p, Unsolved) <= 1 || v == 0)
    ensures Merged(p).attempts == v
  {
    MergedAttempts(p);
    var k := Lead(p);
    assert p[0] in p;
    LeadIsUnsolved(p);
    if v == 0 {
      SumOfZeros(p[..k], Attempts);
    } else if k > 0 {
      SumOne(p[0], Attempts);
      assert p[..1] == [p[0]];
    }
  }

  lemma LeadIsUnsolved(p: seq<Cell>)
    ensures Lead(p) <= Sum(p, Unsolved)
  {
    var k := Lead(p);
    UnsolvedFront(p[..k], p[k..]);
    assert p[..k] + p[k..] == p;
  }

  lemma UnsolvedFront(front: seq<Cell>, rest: seq<Cell>)
    requires forall i | 0 <= i < |front| :: !front[i].solved
    ensures |front| <= Sum(front + rest, Unsolved)
  {
    AllUnsolved(front);
    SumConcat(front, rest, Unsolved);
  }

  lemma EvenIsOrderFree(cells: seq<Cell>)
    requires cells != [] && Even(cells)
    ensures OrderFree(cells)
  {
    forall p | multiset(p) == multiset(cells)
      ensures Merged(p).attempts == Merged(cells).attempts
    {
      SameMembers(cells, p);
      if forall c | c in cells :: !c.solved {
        NobodySolved(cells);
        NobodySolved(p);
        SumPermuted(cells, p, Attempts);
      } else {
        SumPermuted(cells, p, Unsolved);
        EqualAttempts(cells, cells[0].attempts);
        EqualAttempts(p, cells[0].attempts);
      }
    }
  }

  // The same cells with one moved to the front.
  function Front(cells: seq<Cell>, i: nat): seq<Cell>
    requires i < |cells|
  {
    [cells[i]] + cells[..i] + cells[i + 1..]
  }

  lemma FrontPermutes(cells: seq<Cell>, i: nat, j: nat)
    requires i < |cells| && j < |cells|
    ensures multiset(Front(cells, i)) == multiset(cells) && Front(cells, i)[0] == cells[i]
    ensures j != i ==> Front(cells, i)[if j < i then j + 1 else j] == cells[j]
  {
    assert cells == cells[..i] + [cells[i]] + cells[i + 1..];
  }

  // Two chosen cells first, in order.
  lemma TwoFirst(cells: seq<Cell>, i: nat, j: nat) returns (p: seq<Cell>)
    requires i < |cells| && j < |cells| && i != j
    ensures multiset(p) == multiset(cells) && |p| == |cells| && p[0] == cells[i] && p[1] == cells[j]
  {
    FrontPermutes(cells, j, i);
    var q, i' := Front(cells, j), if i < j then i + 1 else i;
    FrontPermutes(q, i', 0);
    p := Front(q, i');
  }

  lemma SolvedAttempts(cells: seq<Cell>, i: nat)
    requires OrderFree(cells) && i < |cells| && cells[i].solved
    ensures cells[i].attempts == Merged(cells).attempts
  {
    FrontPermutes(cells, i, i);
    MergedAttempts(Front(cells, i));
  }

  lemma UnsolvedAttempts(cells: seq<Cell>, i: nat, s: nat)
    requires OrderFree(cells) && i < |cells| && s < |cells| && !cells[i].solved && cells[s].solved
    ensures cells[i].attempts == Merged(cells).attempts
  {
    var p := TwoFirst(cells, i, s);
    MergedAttempts(p);
    LeadIs(p, 1);
    SumOne(p[0], Attempts);
    assert p[..1] == [p[0]];
  }

  lemma TwoAddUp(p: seq<Cell>, v: nat)
    requires |p| > 1 && !p[0].solved && !p[1].solved && p[0].attempts == p[1].attempts == v
    requires Merged(p).attempts == v
    ensures v == 0
  {
    MergedAttempts(p);
    var lead := p[..Lead(p)];
    assert Lead(p) > 1;
    SumAtLeast(lead, Attempts, 0);
    assert lead[1] == p[1];
  }

  // Two unsolved cells in front are added up, and the sum must be what each of them has.
  lemma TwoUnsolvedAttempts(cells: seq<Cell>, i: nat, j: nat, s: nat)
    requires OrderFree(cells) && i < |cells| && j < |cells| && s < |cells| && i != j
    requires !cells[i].solved && !cells[j].solved && cells[s].solved
    ensures Merged(cells).attempts == 0
  {
    UnsolvedAttempts(cells, i, s);
    UnsolvedAttempts(cells, j, s);
    var p := TwoFirst(cells, i, j);
    TwoAddUp(p, Merged(cells).attempts);
  }

  lemma {:induction false} TwoUnsolved(cells: seq<Cell>) returns (i: nat, j: nat)
    requires Sum(cells, Unsolved) > 1
    ensures i < j < |cells| && !cells[i].solved && !cells[j].solved
  {
    var n := |cells| - 1;
    if Sum(cells[..n], Unsolved) > 1 {
      i, j := TwoUnsolved(cells[..n]);
    } else {
      j := n;
      i := OneUnsolved(cells[..n]);
    }
  }

  lemma {:induction false} OneUnsolved(cells: seq<Cell>) returns (i: nat)
    requires Sum(cells, Unsolved) > 0
    ensures i < |cells| && !cells[i].solved
  {
    var n := |cells| - 1;
    if cells[n].solved {
      i := OneUnsolved(cells[..n]);
    } else {
      i := n;
    }
  }

  /** The number of attempts does not depend on the order of the members exactly when nobody solved the
      problem, or all members have equally many attempts and at most one of them did not solve it or
      none has any. */
  lemma OrderFreeIff(cells: seq<Cell>)
    requires cells != []
    ensures OrderFree(cells) <==> Even(cells)
  {
    if Even(cells) {
      EvenIsOrderFree(cells);
    } else if OrderFree(cells) {
      var c :| c in cells && c.solved;
      var s :| 0 <= s < |cells| && cells[s] == c;
      forall i | 0 <= i < |cells|
        ensures cells[i].attempts == Merged(cells).attempts
      {
        if cells[i].solved {
          SolvedAttempts(cells, i);
        } else {
          UnsolvedAttempts(cells, i, s);
        }
      }
      var i, j := TwoUnsolved(cells);
      TwoUnsolvedAttempts(cells, i, j, s);
      assert false;
    }
  }

  // ---------------------------------------------------------------- on the board

  lemma {:induction false} MemberCellsConcat(a: seq<Row>, b: seq<Row>,
                                             teamOf: map<UserId, TeamId>, team: TeamId, tag: string)
    ensures MemberCells(a + b, teamOf, team, tag) ==
            MemberCells(a, teamOf, team, tag) + MemberCells(b, teamOf, team, tag)
  {
    if b == [] {
      assert a + b == a;
    } else {
      var n := |b| - 1;
      assert (a + b)[..|a| + n] == a + b[..n];
      MemberCellsConcat(a, b[..n], teamOf, team, tag);
    }
  }

  lemma {:induction false} MemberCellsPermuted(a: seq<Row>, b: seq<Row>,
                                               teamOf: map<UserId, TeamId>, team: TeamId, tag: string)
    requires multiset(a) == multiset(b)
    ensures multiset(MemberCells(a, teamOf, team, tag)) == multiset(MemberCells(b, teamOf, team, tag))
  {
    SameMembers(a, b);
    if a != [] {
      var n := |a| - 1;
      assert a[n] in b;
      var i :| 0 <= i < |b| && b[i] == a[n];
      RemoveBoth(a, b, i);
      MemberCellsPermuted(a[..n], b[..i] + b[i + 1..], teamOf, team, tag);
      assert a[..n] + a[n + 1..] == a[..n];
      MemberCellsPick(a, n, teamOf, team, tag);
      MemberCellsPick(b, i, teamOf, team, tag);
    }
  }

  lemma MemberCellsPick(rows: seq<Row>, i: nat, teamOf: map<UserId, TeamId>, team: TeamId, tag: string)
    requires i < |rows|
    ensures multiset(MemberCells(rows, teamOf, team, tag)) ==
            multiset(MemberCells(rows[..i] + rows[i + 1..], teamOf, team, tag)) +
            multiset(MemberCells([rows[i]], teamOf, team, tag))
  {
    assert rows == rows[..i] + [rows[i]] + rows[i + 1..];
    MemberCellsConcat(rows[..i] + [rows[i]], rows[i + 1..], teamOf, team, tag);
    MemberCellsConcat(rows[..i], [rows[i]], teamOf, team, tag);
    MemberCellsConcat(rows[..i], rows[i + 1..], teamOf, team, tag);
  }

  /** So under that condition a team cell shows the same attempts whatever the order of the rows. */
  lemma EvenTeamIgnoresOrder(a: seq<Row>, b: seq<Row>, teamOf: map<UserId, TeamId>, team: TeamId, tag: string)
    requires multiset(a) == multiset(b) && MemberCells(a, teamOf, team, tag) != []
    requires Even(MemberCells(a, teamOf, team, tag))
    ensures tag in TeamTags(a, teamOf, team)
    ensures tag in TeamTags(b, teamOf, team)
    ensures TeamCells(a, teamOf, team)[tag].attempts == TeamCells(b, teamOf, team)[tag].attempts
  {
    MemberCellsPermuted(a, b, teamOf, team, tag);
    MemberCellsAre(a, teamOf, team, tag, EmptyCell(tag));
    PermutedCells(a, b, teamOf, team, tag);
    OrderFreeIff(MemberCells(a, teamOf, team, tag));
  }
}
