/** What every interleaving of the dispatch protocol keeps. */
module DispatchSafety {
  import opened Dispatch
  import opened Options

  // ---------------------------------------------------------------- frames

  lemma StillHeld(conns: map<ConnId, Conn>, c: ConnId, k: Conn, id: SubId)
    requires Held(conns, id) && (c in conns && Holds(conns[c], id) ==> Holds(k, id))
    ensures Held(conns[c := k], id)
  {
    var d :| d in conns && Holds(conns[d], id);
    assert Holds(conns[c := k][d], id);
  }

  lemma ReplaceConn(s: State, c: ConnId, k: Conn)
    requires AllAccounted(s.conns) && NamesCurrent(s.conns, s.names) && KnownConns(s.db.Keys, s.conns) && c in s.conns
    requires k.name == s.conns[c].name && k.closed == s.conns[c].closed && Accounted(k) && KnownConn(s.db.Keys, k)
    ensures AllAccounted(s.conns[c := k]) && NamesCurrent(s.conns[c := k], s.names)
    ensures KnownConns(s.db.Keys, s.conns[c := k])
  {
  }

  lemma ReplaceRow(db: map<SubId, Row>, now: int, id: SubId, row: Row)
    requires Leased(db, now) && RowLeased(row, now) && id in db
    ensures Leased(db[id := row], now) && db[id := row].Keys == db.Keys
  {
  }

  // ---------------------------------------------------------------- steps inside one connection

  lemma LocalAccounted(k: Conn, a: LocalAction)
    requires Accounted(k) && LocalEnabled(k, a)
    ensures Accounted(LocalNext(k, a))
  {
  }

  lemma LocalKnown(rows: set<SubId>, k: Conn, a: LocalAction)
    requires KnownConn(rows, k) && LocalEnabled(k, a)
    ensures KnownConn(rows, LocalNext(k, a))
  {
  }

  lemma LocalKeeps(k: Conn, a: LocalAction)
    requires LocalEnabled(k, a)
    ensures forall id :: Holds(LocalNext(k, a), id) == Holds(k, id)
    ensures LocalNext(k, a).name == k.name && LocalNext(k, a).closed == k.closed
  {
  }

  lemma LocalNoneLost(s: State, c: ConnId, k: Conn)
    requires NoneLost(s) && c in s.conns
    requires forall id :: Holds(s.conns[c], id) ==> Holds(k, id)
    ensures NoneLost(SetConn(s, c, k))
  {
    var s' := SetConn(s, c, k);
    forall id | s.phase != Booting && IsPending(s.db, id)
      ensures Covered(s', id)
    {
      if Held(s.conns, id) {
        StillHeld(s.conns, c, k, id);
      }
    }
  }

  lemma LocalInv(s: State, c: ConnId, a: LocalAction)
    requires Inv(s) && Enabled(s, At(c, a))
    ensures Inv(Next(s, At(c, a)))
  {
    var k := s.conns[c];
    LocalAccounted(k, a);
    LocalKnown(s.db.Keys, k, a);
    LocalKeeps(k, a);
    ReplaceConn(s, c, LocalNext(k, a));
    LocalNoneLost(s, c, LocalNext(k, a));
  }

  // ---------------------------------------------------------------- the dispatch loop

  lemma PopInv(s: State, c: ConnId)
    requires Inv(s) && Enabled(s, Pop(c))
    ensures Inv(Next(s, Pop(c)))
  {
    var s' := Next(s, Pop(c));
    var k := s'.conns[c];
    forall id | IsPending(s.db, id)
      ensures Covered(s', id)
    {
      if id == s.queue[0] {
      } else if Held(s.conns, id) {
        StillHeld(s.conns, c, k, id);
      }
    }
  }

  lemma BuildFailsInv(s: State, c: ConnId)
    requires Inv(s) && Enabled(s, BuildFails(c))
    ensures Inv(Next(s, BuildFails(c)))
  {
    var s' := Next(s, BuildFails(c));
    var k, failed := s'.conns[c], s.conns[c].dispatcher.id;
    ReplaceConn(s, c, k);
    ReplaceRow(s.db, s.now, failed, FRESH_ROW);
    forall id | IsPending(s'.db, id)
      ensures Covered(s', id)
    {
      if id == failed {
      } else {
        assert Covered(s, id);
        if Held(s.conns, id) {
          StillHeld(s.conns, c, k, id);
        }
      }
    }
  }

  lemma ReturnInv(s: State, c: ConnId)
    requires Inv(s) && Enabled(s, Return(c))
    ensures Inv(Next(s, Return(c)))
  {
    var s' := Next(s, Return(c));
    var k, back := s'.conns[c], s.conns[c].dispatcher.id;
    ReplaceConn(s, c, k);
    forall id | IsPending(s.db, id)
      ensures Covered(s', id)
    {
      if id != back && Held(s.conns, id) {
        StillHeld(s.conns, c, k, id);
      }
    }
  }

  lemma MarkInv(s: State, c: ConnId)
    requires Inv(s) && Enabled(s, Mark(c))
    ensures Inv(Next(s, Mark(c)))
  {
    var k, id := s.conns[c], s.conns[c].dispatcher.id;
    MarkNoneLost(s, c);
    ConnRowInv(s, Next(s, Mark(c)), c, k.(dispatcher := Marked(id)), id, Row(Judging, Some(s.now + LEASE)));
  }

  // A step that changes one connection and one row.
  lemma ConnRowInv(s: State, s': State, c: ConnId, k: Conn, id: SubId, row: Row)
    requires Inv(s) && NoneLost(s') && c in s.conns && id in s.db && RowLeased(row, s.now)
    requires s' == s.(conns := s.conns[c := k], db := s.db[id := row])
    requires k.name == s.conns[c].name && k.closed == s.conns[c].closed && Accounted(k) && KnownConn(s.db.Keys, k)
    ensures Inv(s')
  {
    ReplaceConn(s, c, k);
    ReplaceRow(s.db, s.now, id, row);
  }

  lemma MarkNoneLost(s: State, c: ConnId)
    requires Inv(s) && Enabled(s, Mark(c))
    ensures NoneLost(Next(s, Mark(c)))
  {
    var s' := Next(s, Mark(c));
    var k, marked := s'.conns[c], s.conns[c].dispatcher.id;
    forall id | IsPending(s'.db, id)
      ensures Covered(s', id)
    {
      assert id != marked && Covered(s, id);
      if Held(s.conns, id) {
        StillHeld(s.conns, c, k, id);
      }
    }
  }

  // Track, Untrack: the in-flight table; Finalize: the verdict is stored.
  lemma TableNoneLost(s: State, c: ConnId, a: Action)
    requires NoneLost(s) && s.phase == Serving && (a == Track(c) || a == Untrack(c)) && Enabled(s, a)
    ensures NoneLost(Next(s, a))
  {
    var s' := Next(s, a);
    LocalNoneLost(s, c, s'.conns[c]);
    forall id | IsPending(s.db, id)
      ensures Covered(s', id)
    {
    }
  }

  lemma TrackInv(s: State, c: ConnId)
    requires Inv(s) && Enabled(s, Track(c))
    ensures Inv(Next(s, Track(c)))
  {
    ReplaceConn(s, c, Next(s, Track(c)).conns[c]);
    TableNoneLost(s, c, Track(c));
  }

  lemma UntrackInv(s: State, c: ConnId)
    requires Inv(s) && Enabled(s, Untrack(c))
    ensures Inv(Next(s, Untrack(c)))
  {
    ReplaceConn(s, c, Next(s, Untrack(c)).conns[c]);
    TableNoneLost(s, c, Untrack(c));
  }

  lemma FinalizeInv(s: State, c: ConnId)
    requires Inv(s) && Enabled(s, Finalize(c))
    ensures Inv(Next(s, Finalize(c)))
  {
    var s' := Next(s, Finalize(c));
    var k, judged := s'.conns[c], s.conns[c].reader;
    ReplaceConn(s, c, k);
    ReplaceRow(s.db, s.now, judged.id, Row(Final(judged.verdict), None));
    forall id | IsPending(s'.db, id)
      ensures Covered(s', id)
    {
      assert id != judged.id && Covered(s, id);
      if Held(s.conns, id) {
        StillHeld(s.conns, c, k, id);
      }
    }
  }

  // ---------------------------------------------------------------- API handlers and the scanner

  // A row is set to PENDING and its push becomes an obligation.
  lemma FreshInv(s: State, s': State, id: SubId)
    requires Inv(s)
    requires s' == s.(db := s.db[id := FRESH_ROW], hands := s'.hands)
    requires Push(id) in s'.hands
    requires forall i :: Push(i) in s.hands ==> Push(i) in s'.hands
    requires forall h | h in s'.hands :: h in s.hands || h == Push(id)
    ensures Inv(s')
  {
    forall i | s.phase != Booting && IsPending(s'.db, i)
      ensures Covered(s', i)
    {
      if i != id {
        assert Covered(s, i);
      }
    }
    forall c | c in s.conns
      ensures KnownConn(s'.db.Keys, s.conns[c])
    {
    }
  }

  lemma ApiInv(s: State, a: Action)
    requires Inv(s) && (a.Create? || a.Rejudge? || a.ReclaimStep?) && Enabled(s, a)
    ensures Inv(Next(s, a))
  {
    if a.ReclaimStep? {
      assert Reclaim(a.id).id in s.db.Keys;
    }
    FreshInv(s, Next(s, a), a.id);
  }

  lemma PushInv(s: State, id: SubId)
    requires Inv(s) && Enabled(s, PushStep(id))
    ensures Inv(Next(s, PushStep(id)))
  {
    var s' := Next(s, PushStep(id));
    forall i | s.phase != Booting && IsPending(s.db, i)
      ensures Covered(s', i)
    {
    }
  }

  // Obligations that are not pushes come and go freely.
  lemma HandsInv(s: State, hands: multiset<Hand>)
    requires Inv(s)
    requires forall i :: Push(i) in s.hands ==> Push(i) in hands
    requires forall h | h in hands :: h in s.hands || h.id in s.db.Keys
    ensures Inv(s.(hands := hands))
  {
  }

  lemma OrphanInv(s: State, id: SubId)
    requires Inv(s) && Enabled(s, OrphanStep(id))
    ensures Inv(Next(s, OrphanStep(id)))
  {
    HandsInv(s, Next(s, OrphanStep(id)).hands);
  }

  lemma ScanInv(s: State, ids: set<SubId>)
    requires Inv(s) && Enabled(s, Scan(ids))
    ensures Inv(Next(s, Scan(ids)))
  {
  }

  lemma TickInv(s: State, dt: nat)
    requires Inv(s)
    ensures Inv(Next(s, Tick(dt)))
  {
  }

  // ---------------------------------------------------------------- restart and connections

  lemma RestartInv(s: State, a: Action)
    requires Inv(s) && (a.Restart? || a.LoadPending? || a.RestoreOne?) && Enabled(s, a)
    ensures Inv(Next(s, a))
  {
    var s' := Next(s, a);
    if a.LoadPending? {
      assert forall id :: id in a.rows <==> id in PendingIds(s);
    } else if a.RestoreOne? {
      forall id | IsPending(s.db, id)
        ensures Covered(s', id)
      {
        if s.phase.left != [] && id == s.phase.left[0] {
        }
      }
    }
  }

  lemma LoginNoneLost(s: State, c: ConnId, name: string, capacity: nat)
    requires Inv(s) && Enabled(s, Connect(c, name, capacity))
    ensures NoneLost(Next(s, Connect(c, name, capacity)))
  {
    var s' := Next(s, Connect(c, name, capacity));
    forall id | IsPending(s.db, id)
      ensures Covered(s', id)
    {
      assert Covered(s, id);
      if Held(s.conns, id) {
        var d :| d in s.conns && Holds(s.conns[d], id);
        assert Holds(s'.conns[d], id);
      }
    }
  }

  lemma ConnectInv(s: State, c: ConnId, name: string, capacity: nat)
    requires Inv(s) && Enabled(s, Connect(c, name, capacity))
    ensures Inv(Next(s, Connect(c, name, capacity)))
  {
    LoginNoneLost(s, c, name, capacity);
    LoginConns(s, c, name, capacity);
    LoginNames(s, c, name, capacity);
  }

  lemma LoginConns(s: State, c: ConnId, name: string, capacity: nat)
    requires Inv(s) && Enabled(s, Connect(c, name, capacity))
    ensures AllAccounted(Next(s, Connect(c, name, capacity)).conns)
    ensures KnownConns(s.db.Keys, Next(s, Connect(c, name, capacity)).conns)
  {
    assert Accounted(NewConn(name, capacity)) && KnownConn(s.db.Keys, NewConn(name, capacity));
  }

  lemma LoginNames(s: State, c: ConnId, name: string, capacity: nat)
    requires Inv(s) && Enabled(s, Connect(c, name, capacity))
    ensures
      var s' := Next(s, Connect(c, name, capacity));
      NamesCurrent(s'.conns, s'.names)
  {
  }

  lemma DropInv(s: State, c: ConnId)
    requires Inv(s) && Enabled(s, Drop(c))
    ensures Inv(Next(s, Drop(c)))
  {
    DropNoneLost(s, c);
    DropConns(s, c);
  }

  lemma DropNoneLost(s: State, c: ConnId)
    requires Inv(s) && Enabled(s, Drop(c))
    ensures NoneLost(Next(s, Drop(c)))
  {
    var s' := Next(s, Drop(c));
    forall id | IsPending(s.db, id)
      ensures Covered(s', id)
    {
      if Held(s.conns, id) {
        StillHeld(s.conns, c, s'.conns[c], id);
      }
    }
  }

  lemma DropConns(s: State, c: ConnId)
    requires Inv(s) && Enabled(s, Drop(c))
    ensures
      var s' := Next(s, Drop(c));
      AllAccounted(s'.conns) && NamesCurrent(s'.conns, s'.names) && KnownConns(s.db.Keys, s'.conns)
  {
  }

  lemma LoopInv(s: State, a: Action)
    requires Inv(s) && Enabled(s, a)
    requires a.Pop? || a.BuildFails? || a.Return? || a.Mark? || a.Track? || a.Untrack? || a.Finalize?
    ensures Inv(Next(s, a))
  {
    if a.Pop? {
      PopInv(s, a.c);
    } else if a.BuildFails? {
      BuildFailsInv(s, a.c);
    } else if a.Return? {
      ReturnInv(s, a.c);
    } else if a.Mark? {
      MarkInv(s, a.c);
    } else if a.Finalize? {
      FinalizeInv(s, a.c);
    } else if a.Track? {
      TrackInv(s, a.c);
    } else {
      UntrackInv(s, a.c);
    }
  }

  lemma QuietInv(s: State, a: Action)
    requires Inv(s) && Enabled(s, a) && (a.PushStep? || a.OrphanStep? || a.Scan? || a.Tick?)
    ensures Inv(Next(s, a))
  {
    if a.PushStep? {
      PushInv(s, a.id);
    } else if a.OrphanStep? {
      OrphanInv(s, a.id);
    } else if a.Scan? {
      ScanInv(s, a.ids);
    } else {
      TickInv(s, a.dt);
    }
  }

  /** Every step keeps the invariant. */
  lemma NextInv(s: State, a: Action)
    requires Inv(s) && Enabled(s, a)
    ensures Inv(Next(s, a))
  {
    if a.At? {
      LocalInv(s, a.c, a.step);
    } else if a.Create? || a.Rejudge? || a.ReclaimStep? {
      ApiInv(s, a);
    } else if a.PushStep? || a.OrphanStep? || a.Scan? || a.Tick? {
      QuietInv(s, a);
    } else if a.Connect? {
      ConnectInv(s, a.c, a.name, a.capacity);
    } else if a.Drop? {
      DropInv(s, a.c);
    } else if a.Restart? || a.LoadPending? || a.RestoreOne? {
      RestartInv(s, a);
    } else {
      LoopInv(s, a);
    }
  }
}
