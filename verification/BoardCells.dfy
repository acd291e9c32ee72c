/** What a cell of a board means, and what freezing does to it. */
module BoardCells {
  import opened Freeze
  import opened Options
  import opened Scoring

  // ---------------------------------------------------------------- ACM cells in closed form

  predicate Solves(lens: Lens, sub: Sub) { sub.status == AC && !Masked(lens, sub) }

  predicate Fails(lens: Lens, sub: Sub) { IsFailed(sub.status) && !Masked(lens, sub) }

  function CountFails(lens: Lens, subs: seq<Sub>): nat {
    if subs == [] then 0
    else CountFails(lens, subs[..|subs| - 1]) + if Fails(lens, subs[|subs| - 1]) then 1 else 0
  }

  function CountMasked(lens: Lens, subs: seq<Sub>): nat {
    if subs == [] then 0
    else CountMasked(lens, subs[..|subs| - 1]) + if Masked(lens, subs[|subs| - 1]) then 1 else 0
  }

  ghost predicate Unsolved(lens: Lens, subs: seq<Sub>) { forall i | 0 <= i < |subs| :: !Solves(lens, subs[i]) }

  /** A cell nobody has visibly solved counts the visible failures and the masked submissions. */
  lemma {:induction false} UnsolvedCell(lens: Lens, tag: string, subs: seq<Sub>)
    requires lens.mode == ACM && Unsolved(lens, subs)
    ensures Fold(lens, tag, subs) == Cell(tag, CountFails(lens, subs), 0, CountMasked(lens, subs), false)
  {
    if subs != [] {
      UnsolvedCell(lens, tag, subs[..|subs| - 1]);
    }
  }

  /** A solved cell is decided by its first visible AC: the time from the start plus 20 minutes for
      every visible failure before it.  Nothing after that submission counts. */
  lemma {:induction false} SolvedCell(lens: Lens, tag: string, subs: seq<Sub>, k: nat)
    requires lens.mode == ACM && k < |subs| && Solves(lens, subs[k]) && Unsolved(lens, subs[..k])
    ensures
      var wrong := CountFails(lens, subs[..k]);
      Fold(lens, tag, subs) ==
      Cell(tag, wrong, Millis(subs[k].created - lens.start) + wrong * PENALTY_PER_WRONG,
           CountMasked(lens, subs[..k]), true)
  {
    var n := |subs| - 1;
    if k == n {
      UnsolvedCell(lens, tag, subs[..k]);
    } else {
      assert subs[..n][..k] == subs[..k];
      SolvedCell(lens, tag, subs[..n], k);
    }
  }

  lemma FirstSolve(lens: Lens, subs: seq<Sub>) returns (k: nat)
    ensures k <= |subs| && Unsolved(lens, subs[..k]) && (k < |subs| ==> Solves(lens, subs[k]))
  {
    k := 0;
    while k < |subs| && !Solves(lens, subs[k])
      invariant k <= |subs| && Unsolved(lens, subs[..k])
    {
      k := k + 1;
    }
  }

  /** A cell is solved exactly when some submission of it is a visible AC. */
  lemma SolvedIff(lens: Lens, tag: string, subs: seq<Sub>)
    requires lens.mode == ACM
    ensures Fold(lens, tag, subs).solved <==> !Unsolved(lens, subs)
  {
    var k := FirstSolve(lens, subs);
    if k < |subs| {
      SolvedCell(lens, tag, subs, k);
    } else {
      assert subs[..k] == subs;
      UnsolvedCell(lens, tag, subs);
    }
  }

  // ---------------------------------------------------------------- freezing only hides

  function Thawed(lens: Lens): Lens { lens.(maskFrom := None) }

  predicate Chronological(subs: seq<Sub>) { forall i, j | 0 <= i < j < |subs| :: subs[i].created <= subs[j].created }

  predicate OfUser(subs: seq<Sub>, user: UserId) { forall i | 0 <= i < |subs| :: subs[i].user == user }

  // No masked submission before a visible one.
  predicate MaskedLast(lens: Lens, subs: seq<Sub>) {
    forall i, j | 0 <= i < j < |subs| && Masked(lens, subs[i]) :: Masked(lens, subs[j])
  }

  // One user's submissions in order of creation are masked from some point on.
  lemma ChronologicalMasksLast(lens: Lens, subs: seq<Sub>, user: UserId)
    requires Chronological(subs) && OfUser(subs, user)
    ensures MaskedLast(lens, subs)
  {
  }

  // With nothing masked the freeze makes no difference.
  lemma {:induction false} UnmaskedFold(lens: Lens, tag: string, subs: seq<Sub>)
    requires forall i | 0 <= i < |subs| :: !Masked(lens, subs[i])
    ensures Fold(lens, tag, subs) == Fold(Thawed(lens), tag, subs)
  {
    if subs != [] {
      UnmaskedFold(lens, tag, subs[..|subs| - 1]);
    }
  }

  // A cell solved on the frozen board is the same, its pending count aside, on the thawed one.
  ghost predicate Hides(frozen: Cell, thawed: Cell) {
    && thawed.pending == 0 && frozen.tag == thawed.tag && frozen.attempts <= thawed.attempts
    && (frozen.solved ==> thawed == frozen.(pending := 0))
  }

  lemma {:induction false} FoldHides(lens: Lens, tag: string, subs: seq<Sub>)
    requires lens.mode == ACM && MaskedLast(lens, subs)
    ensures Hides(Fold(lens, tag, subs), Fold(Thawed(lens), tag, subs))
  {
    if subs != [] {
      var n := |subs| - 1;
      FoldHides(lens, tag, subs[..n]);
      if !Masked(lens, subs[n]) {
        UnmaskedFold(lens, tag, subs);
      }
    }
  }

  lemma {:induction false} CellSubsFrom(lens: Lens, subs: seq<Sub>, user: UserId, tag: string)
    ensures
      var s := CellSubs(lens, subs, user, tag);
      && OfUser(s, user) && (forall i | 0 <= i < |s| :: s[i] in subs)
      && (Chronological(subs) ==> Chronological(s))
  {
    if subs != [] {
      CellSubsFrom(lens, subs[..|subs| - 1], user, tag);
    }
  }

  // The cells a row has do not depend on masking.
  lemma {:induction false} ThawedCells(lens: Lens, subs: seq<Sub>, user: UserId, tag: string)
    ensures Users(Thawed(lens), subs) == Users(lens, subs)
    ensures Tried(Thawed(lens), subs, user) == Tried(lens, subs, user)
    ensures CellSubs(Thawed(lens), subs, user, tag) == CellSubs(lens, subs, user, tag)
  {
    if subs != [] {
      ThawedCells(lens, subs[..|subs| - 1], user, tag);
    }
  }

  // In no cell of the user does a masked submission come before a visible one.
  ghost predicate CellsMaskedLast(lens: Lens, subs: seq<Sub>, user: UserId) {
    forall tag :: MaskedLast(lens, CellSubs(lens, subs, user, tag))
  }

  lemma ChronologicalCells(lens: Lens, subs: seq<Sub>)
    requires Chronological(subs)
    ensures forall user :: CellsMaskedLast(lens, subs, user)
  {
    forall user, tag
      ensures MaskedLast(lens, CellSubs(lens, subs, user, tag))
    {
      CellSubsFrom(lens, subs, user, tag);
      ChronologicalMasksLast(lens, CellSubs(lens, subs, user, tag), user);
    }
  }

  /** On an ACM board, whatever the order, the frozen and the thawed board show the same users and cells,
      every cell solved on the frozen board is solved without the freeze, and no user has more problems
      solved than without it. */
  lemma FreezeAddsNoSolve(lens: Lens, subs: seq<Sub>, user: UserId)
    requires lens.mode == ACM && user in Users(lens, subs)
    ensures Rows(Thawed(lens), subs).Keys == Rows(lens, subs).Keys
    ensures
      var frozen, thawed := Rows(lens, subs)[user], Rows(Thawed(lens), subs)[user];
      && thawed.cells.Keys == frozen.cells.Keys
      && (forall tag | tag in frozen.cells :: frozen.cells[tag].solved ==> thawed.cells[tag].solved)
      && frozen.solved <= thawed.solved
  {
    ThawedCells(lens, subs, user, "");
    var frozen, thawed := CellsOf(lens, subs, user), CellsOf(Thawed(lens), subs, user);
    forall tag | tag in frozen
      ensures frozen[tag].solved ==> thawed[tag].solved
    {
      ThawedCells(lens, subs, user, tag);
      VisibleStaysVisible(lens, tag, CellSubs(lens, subs, user, tag));
    }
    SubsetSize(SolvedLabels(frozen), SolvedLabels(thawed));
  }

  lemma VisibleStaysVisible(lens: Lens, tag: string, subs: seq<Sub>)
    requires lens.mode == ACM
    ensures Fold(lens, tag, subs).solved ==> Fold(Thawed(lens), tag, subs).solved
  {
    SolvedIff(lens, tag, subs);
    SolvedIff(Thawed(lens), tag, subs);
    if !Unsolved(lens, subs) {
      var i :| 0 <= i < |subs| && Solves(lens, subs[i]);
      assert Solves(Thawed(lens), subs[i]);
    }
  }

  /** On an ACM board where no cell has a masked submission before a visible one, freezing only hides:
      both boards show the same users and cells, every cell solved on the frozen board has the same
      time and attempts without the freeze, and no user has more problems solved than without it. */
  lemma FreezeOnlyHides(lens: Lens, subs: seq<Sub>, user: UserId)
    requires lens.mode == ACM && CellsMaskedLast(lens, subs, user) && user in Users(lens, subs)
    ensures Rows(Thawed(lens), subs).Keys == Rows(lens, subs).Keys
    ensures
      var frozen, thawed := Rows(lens, subs)[user], Rows(Thawed(lens), subs)[user];
      && thawed.cells.Keys == frozen.cells.Keys
      && (forall tag | tag in frozen.cells :: Hides(frozen.cells[tag], thawed.cells[tag]))
      && frozen.solved <= thawed.solved
  {
    FreezeAddsNoSolve(lens, subs, user);
    var frozen, thawed := CellsOf(lens, subs, user), CellsOf(Thawed(lens), subs, user);
    forall tag | tag in frozen
      ensures Hides(frozen[tag], thawed[tag])
    {
      ThawedCells(lens, subs, user, tag);
      FoldHides(lens, tag, CellSubs(lens, subs, user, tag));
    }
  }

  // A verdict that counts on the thawed board but is masked on the frozen one.
  predicate Counts(sub: Sub) { sub.status == AC || IsFailed(sub.status) }

  // Thawing adds the masked failures to the visible ones.
  lemma {:induction false} ThawedFails(lens: Lens, subs: seq<Sub>)
    ensures CountFails(lens, subs) <= CountFails(Thawed(lens), subs)
    ensures CountFails(lens, subs) == CountFails(Thawed(lens), subs) <==>
            forall i | 0 <= i < |subs| && Masked(lens, subs[i]) :: !IsFailed(subs[i].status)
  {
    if subs != [] {
      ThawedFails(lens, subs[..|subs| - 1]);
    }
  }

  // The first AC without the freeze is the visible one exactly when no masked one precedes it.
  lemma ThawedUnsolved(lens: Lens, subs: seq<Sub>)
    requires Unsolved(lens, subs)
    ensures Unsolved(Thawed(lens), subs) <==>
            forall i | 0 <= i < |subs| && Masked(lens, subs[i]) :: subs[i].status != AC
  {
  }

  /** Whatever the order: a cell solved on the frozen board is decided by the same submission with the
      same attempts without the freeze if and only if no masked AC or failure precedes its first
      visible AC, and then it only loses its pending count. */
  lemma SolvedSurvivesIff(lens: Lens, tag: string, subs: seq<Sub>, k: nat)
    requires lens.mode == ACM && k < |subs| && Solves(lens, subs[k]) && Unsolved(lens, subs[..k])
    ensures
      var frozen, thawed := Fold(lens, tag, subs), Fold(Thawed(lens), tag, subs);
      var before := subs[..k];
      && (Unsolved(Thawed(lens), before) && thawed.attempts == frozen.attempts <==>
          forall i | 0 <= i < k && Masked(lens, before[i]) :: !Counts(before[i]))
      && (Unsolved(Thawed(lens), before) && thawed.attempts == frozen.attempts ==>
          thawed == frozen.(pending := 0))
  {
    var before := subs[..k];
    SolvedCell(lens, tag, subs, k);
    ThawedFails(lens, before);
    ThawedUnsolved(lens, before);
    if Unsolved(Thawed(lens), before) {
      SolvedCell(Thawed(lens), tag, subs, k);
      NothingMasked(Thawed(lens), before);
    }
  }

  lemma {:induction false} NothingMasked(lens: Lens, subs: seq<Sub>)
    requires lens.maskFrom == None
    ensures CountMasked(lens, subs) == 0
  {
    if subs != [] {
      NothingMasked(lens, subs[..|subs| - 1]);
    }
  }

  // The query that feeds the board asks for no order: with a masked AC listed before a visible one,
  // the frozen board times the cell by the visible AC and the thawed board by the other.
  lemma OrderMatters()
    ensures
      var lens := Lens(ACM, 0, map[1 := "A"], {}, Some(50_000_000), {});
      var late, early := Sub(7, 1, AC, 0, 60_000_000, false), Sub(7, 1, AC, 0, 40_000_000, false);
      && !Hides(Fold(lens, "A", [late, early]), Fold(Thawed(lens), "A", [late, early]))
      && Hides(Fold(lens, "A", [early, late]), Fold(Thawed(lens), "A", [early, late]))
  {
    var lens := Lens(ACM, 0, map[1 := "A"], {}, Some(50_000_000), {});
    var late, early := Sub(7, 1, AC, 0, 60_000_000, false), Sub(7, 1, AC, 0, 40_000_000, false);
    assert Fold(lens, "A", [late]) == EmptyCell("A").(pending := 1);
    assert Fold(Thawed(lens), "A", [late]).solvedMS == 60;
  }

  // ---------------------------------------------------------------- IOI cells

  lemma {:induction false} IOIFoldHides(lens: Lens, tag: string, subs: seq<Sub>)
    requires lens.mode == IOI
    ensures
      var frozen, thawed := Fold(lens, tag, subs), Fold(Thawed(lens), tag, subs);
      && frozen.solvedMS <= thawed.solvedMS && (frozen.solved ==> thawed.solved)
      && frozen.attempts + frozen.pending == thawed.attempts && thawed.pending == 0
  {
    if subs != [] {
      IOIFoldHides(lens, tag, subs[..|subs| - 1]);
    }
  }

  lemma {:induction false} TotalBelow(a: map<string, Cell>, b: map<string, Cell>, tags: set<string>)
    requires tags <= a.Keys && tags <= b.Keys && forall tag | tag in tags :: a[tag].solvedMS <= b[tag].solvedMS
    ensures TotalOver(a, tags) <= TotalOver(b, tags)
  {
    if tags != {} {
      var tag :| tag in tags;
      TotalPick(a, tags, tag);
      TotalPick(b, tags, tag);
      TotalBelow(a, b, tags - {tag});
    }
  }

  /** On an IOI board, in whatever order, no shown score and no shown total exceeds the true one. */
  lemma IOIFreezeOnlyHides(lens: Lens, subs: seq<Sub>, user: UserId)
    requires lens.mode == IOI && user in Users(lens, subs)
    ensures Rows(Thawed(lens), subs).Keys == Rows(lens, subs).Keys
    ensures
      var frozen, thawed := Rows(lens, subs)[user], Rows(Thawed(lens), subs)[user];
      && thawed.cells.Keys == frozen.cells.Keys
      && (forall tag | tag in frozen.cells :: frozen.cells[tag].solvedMS <= thawed.cells[tag].solvedMS)
      && frozen.penaltyMS <= thawed.penaltyMS && frozen.solved <= thawed.solved
  {
    ThawedCells(lens, subs, user, "");
    var frozen, thawed := CellsOf(lens, subs, user), CellsOf(Thawed(lens), subs, user);
    forall tag | tag in frozen
      ensures frozen[tag].solvedMS <= thawed[tag].solvedMS && (frozen[tag].solved ==> thawed[tag].solved)
    {
      ThawedCells(lens, subs, user, tag);
      IOIFoldHides(lens, tag, CellSubs(lens, subs, user, tag));
    }
    TotalBelow(frozen, thawed, frozen.Keys);
    SubsetSize(SolvedLabels(frozen), SolvedLabels(thawed));
  }
}
