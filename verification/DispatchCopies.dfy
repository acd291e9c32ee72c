/** How many copies of a submission the dispatch protocol has under way, which steps add one, and when
    delivery is exactly once. */
module DispatchCopies {
  import opened Dispatch
  import opened DispatchRuns
  import opened DispatchSafety
  import opened Options

  function Holders(conns: map<ConnId, Conn>, id: SubId): set<ConnId> { set c | c in conns && Holds(conns[c], id) }

  // Queued, about to be pushed, or popped and not marked yet.
  function Copies(s: State, id: SubId): nat { multiset(s.queue)[id] + s.hands[Push(id)] + |Holders(s.conns, id)| }

  // The steps that make a copy ...
  predicate Adds(s: State, a: Action, id: SubId) {
    || a == Create(id) || a == Rejudge(id) || a == ReclaimStep(id)
    || (a == RestoreOne && s.phase.Restoring? && s.phase.left != [] && s.phase.left[0] == id)
  }

  // ... and the one that turns a copy into a dispatch.
  predicate Spends(s: State, a: Action, id: SubId) {
    a.Mark? && a.c in s.conns && s.conns[a.c].dispatcher == Holding(id)
  }

  function Count(b: bool): nat { if b then 1 else 0 }

  // ---------------------------------------------------------------- the ledger of copies

  lemma HoldersReplace(conns: map<ConnId, Conn>, c: ConnId, k: Conn, id: SubId)
    requires c in conns
    ensures |Holders(conns[c := k], id)| == |Holders(conns, id)| + Count(Holds(k, id)) - Count(Holds(conns[c], id))
  {
    var before, after := Holders(conns, id), Holders(conns[c := k], id);
    if Holds(k, id) {
      assert after == before + {c};
    } else {
      assert after == before - {c};
    }
  }

  lemma HoldersLogin(s: State, c: ConnId, name: string, capacity: nat, id: SubId)
    requires c !in s.conns
    ensures Holders(CloseStale(s.conns, s.names, name)[c := NewConn(name, capacity)], id) == Holders(s.conns, id)
  {
  }

  lemma QueueEnds(queue: seq<SubId>, x: SubId, id: SubId)
    ensures multiset(queue + [x])[id] == multiset(queue)[id] + Count(x == id)
    ensures queue != [] ==> multiset(queue[1..])[id] == multiset(queue)[id] - Count(queue[0] == id)
  {
    if queue != [] {
      assert queue == [queue[0]] + queue[1..];
      assert multiset(queue) == multiset{queue[0]} + multiset(queue[1..]);
    }
  }

  lemma NoPushAmong(ids: set<SubId>, id: SubId)
    ensures ReclaimHands(ids)[Push(id)] == 0 && OrphanHands(ids)[Push(id)] == 0
  {
  }

  lemma ScanLedger(s: State, ids: set<SubId>, id: SubId)
    requires Enabled(s, Scan(ids))
    ensures Copies(Next(s, Scan(ids)), id) == Copies(s, id)
  {
    NoPushAmong(ids, id);
  }

  lemma OrphanLedger(s: State, x: SubId, id: SubId)
    requires Enabled(s, OrphanStep(x))
    ensures Copies(Next(s, OrphanStep(x)), id) == Copies(s, id)
  {
  }

  lemma FreshLedger(s: State, a: Action, id: SubId)
    requires Enabled(s, a) && (a.Create? || a.Rejudge? || a.ReclaimStep?)
    ensures Copies(Next(s, a), id) == Copies(s, id) + Count(Adds(s, a, id))
  {
  }

  lemma PushLedger(s: State, x: SubId, id: SubId)
    requires Enabled(s, PushStep(x))
    ensures Copies(Next(s, PushStep(x)), id) == Copies(s, id)
  {
    QueueEnds(s.queue, x, id);
  }

  lemma RestoreLedger(s: State, id: SubId)
    requires Enabled(s, RestoreOne)
    ensures Copies(Next(s, RestoreOne), id) == Copies(s, id) + Count(Adds(s, RestoreOne, id))
  {
    if s.phase.left != [] {
      QueueEnds(s.queue, s.phase.left[0], id);
    }
  }

  lemma QuietLedger(s: State, a: Action, id: SubId)
    requires Enabled(s, a) && (a.Tick? || a.LoadPending?)
    ensures Copies(Next(s, a), id) == Copies(s, id) && !Adds(s, a, id)
  {
  }

  lemma ApiLedger(s: State, a: Action, id: SubId)
    requires Enabled(s, a) && IsApi(a) && !a.Restart?
    ensures Copies(Next(s, a), id) == Copies(s, id) + Count(Adds(s, a, id))
  {
    if a.PushStep? {
      PushLedger(s, a.id, id);
    } else if a.RestoreOne? {
      RestoreLedger(s, id);
    } else if a.Scan? {
      ScanLedger(s, a.ids, id);
    } else if a.OrphanStep? {
      OrphanLedger(s, a.id, id);
    } else if a.Create? || a.Rejudge? || a.ReclaimStep? {
      FreshLedger(s, a, id);
    } else {
      QuietLedger(s, a, id);
    }
  }

  // A connection's step moves or spends at most its own copy.
  lemma PopLedger(s: State, c: ConnId, id: SubId)
    requires Enabled(s, Pop(c))
    ensures Copies(Next(s, Pop(c)), id) == Copies(s, id)
  {
    HoldersReplace(s.conns, c, Next(s, Pop(c)).conns[c], id);
    QueueEnds(s.queue, 0, id);
  }

  lemma ReturnLedger(s: State, c: ConnId, id: SubId)
    requires Enabled(s, Return(c))
    ensures Copies(Next(s, Return(c)), id) == Copies(s, id)
  {
    HoldersReplace(s.conns, c, Next(s, Return(c)).conns[c], id);
    QueueEnds(s.queue, s.conns[c].dispatcher.id, id);
  }

  lemma HeldLedger(s: State, a: Action, id: SubId)
    requires Enabled(s, a) && (a.BuildFails? || a.Mark?)
    ensures Copies(Next(s, a), id) == Copies(s, id) - Count(Spends(s, a, id))
  {
    HoldersReplace(s.conns, a.c, Next(s, a).conns[a.c], id);
  }

  lemma LocalLedger(s: State, a: Action, id: SubId)
    requires Enabled(s, a) && (a.At? || a.Track? || a.Untrack? || a.Finalize? || a.Drop?)
    ensures Copies(Next(s, a), id) == Copies(s, id)
  {
    var s' := Next(s, a);
    HoldersReplace(s.conns, a.c, s'.conns[a.c], id);
    if a.At? {
      LocalKeeps(s.conns[a.c], a.step);
    } else if a.Drop? {
      NoPushAmong(OwnedBy(s, s.conns[a.c].name), id);
    }
  }

  lemma ConnLedger(s: State, a: Action, id: SubId)
    requires Enabled(s, a) && !IsApi(a)
    ensures Copies(Next(s, a), id) == Copies(s, id) - Count(Spends(s, a, id))
  {
    if a.Connect? {
      HoldersLogin(s, a.c, a.name, a.capacity, id);
    } else if a.Pop? {
      PopLedger(s, a.c, id);
    } else if a.Return? {
      ReturnLedger(s, a.c, id);
    } else if a.BuildFails? || a.Mark? {
      HeldLedger(s, a, id);
    } else {
      LocalLedger(s, a, id);
    }
  }

  /** Every step but a restart balances: copies come from the creating, rejudging, reclaiming and
      restoring steps only, and only a mark uses one up.  A restart adds none. */
  lemma Ledger(s: State, a: Action, id: SubId)
    requires Enabled(s, a)
    ensures !a.Restart? ==> Copies(Next(s, a), id) == Copies(s, id) + Count(Adds(s, a, id)) - Count(Spends(s, a, id))
    ensures a.Restart? ==> Copies(Next(s, a), id) <= Copies(s, id)
  {
    if a.Restart? {
      assert Holders(map[], id) == {};
    } else if IsApi(a) {
      ApiLedger(s, a, id);
    } else {
      ConnLedger(s, a, id);
    }
  }

  // ---------------------------------------------------------------- when a second copy appears

  // A rejudge, the write of a reclaim (by the scanner or after a disconnect) or the restore at
  // start-up, of a submission that has a copy already.
  predicate Duplicates(s: State, a: Action, id: SubId) { Copies(s, id) > 0 && Adds(s, a, id) && !a.Create? }

  lemma UnknownHasNoCopy(s: State, id: SubId)
    requires Known(s) && id !in s.db
    ensures Copies(s, id) == 0
  {
    assert Push(id).id == id;
    assert Holders(s.conns, id) == {};
  }

  /** The guard under which a step makes a second copy. */
  lemma SecondCopyIff(s: State, a: Action, id: SubId)
    requires Inv(s) && Enabled(s, a) && Copies(s, id) <= 1
    ensures Copies(Next(s, a), id) > 1 <==> Duplicates(s, a, id)
  {
    Ledger(s, a, id);
    if a == Create(id) {
      UnknownHasNoCopy(s, id);
    }
  }

  predicate AlwaysSingle(s: State, actions: seq<Action>, id: SubId)
    decreases |actions|
  {
    Copies(s, id) <= 1 &&
    (actions == [] || !Enabled(s, actions[0]) || AlwaysSingle(Next(s, actions[0]), actions[1..], id))
  }

  predicate NeverDuplicated(s: State, actions: seq<Action>, id: SubId)
    decreases |actions|
  {
    actions == [] || !Enabled(s, actions[0]) ||
    (!Duplicates(s, actions[0], id) && NeverDuplicated(Next(s, actions[0]), actions[1..], id))
  }

  lemma {:induction false} SingleFromIff(s: State, actions: seq<Action>, t: State, id: SubId)
    requires Inv(s) && Runs(s, actions, t) && Copies(s, id) <= 1
    ensures AlwaysSingle(s, actions, id) <==> NeverDuplicated(s, actions, id)
    decreases |actions|
  {
    if actions != [] {
      SecondCopyIff(s, actions[0], id);
      NextInv(s, actions[0]);
      if !Duplicates(s, actions[0], id) {
        SingleFromIff(Next(s, actions[0]), actions[1..], t, id);
      }
    }
  }

  /** A run has at most one copy of a submission throughout if and only if it rejudges, reclaims and
      restores the submission only while there is none. */
  lemma SingleCopyIff(actions: seq<Action>, t: State, id: SubId)
    requires Runs(INIT, actions, t)
    ensures AlwaysSingle(INIT, actions, id) <==> NeverDuplicated(INIT, actions, id)
  {
    SingleFromIff(INIT, actions, t, id);
  }

  // ---------------------------------------------------------------- exactly once without disturbance

  predicate Disturbs(a: Action) { a.Rejudge? || a.Scan? || a.Drop? || a.Restart? }

  predicate Undisturbed(actions: seq<Action>) { forall a | a in actions :: !Disturbs(a) }

  // How often a run marks a submission, that is, dispatches it.
  function TimesDispatched(s: State, actions: seq<Action>, id: SubId): nat
    decreases |actions|
  {
    if actions == [] || !Enabled(s, actions[0]) then 0
    else Count(Spends(s, actions[0], id)) + TimesDispatched(Next(s, actions[0]), actions[1..], id)
  }

  // No goroutine owes anything but pushes.
  ghost predicate Calm(s: State) { s.phase == Serving && forall h | h in s.hands :: h.Push? }

  lemma CalmAdds(s: State, a: Action)
    requires Calm(s) && Enabled(s, a) && !Disturbs(a)
    ensures forall id :: Adds(s, a, id) <==> a == Create(id)
  {
  }

  lemma CalmApi(s: State, a: Action)
    requires Calm(s) && Enabled(s, a) && IsApi(a) && !Disturbs(a)
    ensures Calm(ApiNext(s, a))
  {
  }

  lemma NextCalm(s: State, a: Action)
    requires Calm(s) && Enabled(s, a) && !Disturbs(a)
    ensures Calm(Next(s, a))
    ensures forall id :: Adds(s, a, id) <==> a == Create(id)
  {
    CalmAdds(s, a);
    if IsApi(a) {
      CalmApi(s, a);
    }
  }

  lemma ApiRows(s: State, a: Action)
    requires Enabled(s, a) && IsApi(a)
    ensures ApiNext(s, a).db.Keys == s.db.Keys + if a.Create? then {a.id} else {}
  {
  }

  lemma NextRows(s: State, a: Action)
    requires Enabled(s, a)
    ensures Next(s, a).db.Keys == s.db.Keys + if a.Create? then {a.id} else {}
  {
    if IsApi(a) {
      ApiRows(s, a);
    }
  }

  lemma {:induction false} CalmRun(s: State, actions: seq<Action>, t: State, id: SubId)
    requires Calm(s) && Runs(s, actions, t) && Undisturbed(actions)
    ensures Calm(t)
    ensures Copies(t, id) + TimesDispatched(s, actions, id) == Copies(s, id) + Count(id in t.db) - Count(id in s.db)
    decreases |actions|
  {
    if actions != [] {
      var a := actions[0];
      assert a in actions;
      NextCalm(s, a);
      NextRows(s, a);
      Ledger(s, a, id);
      CalmRun(Next(s, a), actions[1..], t, id);
    }
  }

  // Ids a connection carries from the mark to the verdict.
  predicate Past(k: Conn, id: SubId) {
    || k.dispatcher == Marked(id) || k.dispatcher == Counted(id) || k.dispatcher == Sending(id)
    || id in k.buffer || id in k.toDaemon || k.waiting == Some(id) || id in k.running
    || (exists r | r in k.toApi :: r.0 == id)
    || (!k.reader.Reading? && k.reader.id == id)
  }

  // A copy means PENDING, and being past the mark means not.
  ghost predicate Settled(s: State, id: SubId) {
    && Copies(s, id) <= 1 && (Copies(s, id) > 0 ==> IsPending(s.db, id))
    && forall c | c in s.conns && Past(s.conns[c], id) :: id in s.db && !IsPending(s.db, id)
  }

  lemma LocalPast(k: Conn, a: LocalAction, id: SubId)
    requires LocalEnabled(k, a) && Past(LocalNext(k, a), id)
    ensures Past(k, id)
  {
  }

  lemma LocalSettled(s: State, c: ConnId, step: LocalAction, id: SubId)
    requires Settled(s, id) && Enabled(s, At(c, step))
    ensures Settled(Next(s, At(c, step)), id)
  {
    Ledger(s, At(c, step), id);
    if Past(LocalNext(s.conns[c], step), id) {
      LocalPast(s.conns[c], step, id);
    }
  }

  lemma TableSettled(s: State, a: Action, id: SubId)
    requires Settled(s, id) && Enabled(s, a) && (a.Track? || a.Untrack?)
    ensures Settled(Next(s, a), id)
  {
    Ledger(s, a, id);
  }

  lemma PopSettled(s: State, c: ConnId, id: SubId)
    requires Settled(s, id) && Enabled(s, Pop(c))
    ensures Settled(Next(s, Pop(c)), id)
  {
    Ledger(s, Pop(c), id);
  }

  lemma ReturnSettled(s: State, c: ConnId, id: SubId)
    requires Settled(s, id) && Enabled(s, Return(c))
    ensures Settled(Next(s, Return(c)), id)
  {
    Ledger(s, Return(c), id);
  }

  lemma ConnectSettled(s: State, c: ConnId, name: string, capacity: nat, id: SubId)
    requires Settled(s, id) && Enabled(s, Connect(c, name, capacity))
    ensures Settled(Next(s, Connect(c, name, capacity)), id)
  {
    var s' := Next(s, Connect(c, name, capacity));
    Ledger(s, Connect(c, name, capacity), id);
    forall d | d in s'.conns && Past(s'.conns[d], id)
      ensures d in s.conns && Past(s.conns[d], id)
    {
    }
  }

  // A connection that holds a copy shows in the count.
  lemma HolderHasCopy(s: State, c: ConnId, id: SubId)
    requires c in s.conns && Holds(s.conns[c], id)
    ensures Copies(s, id) > 0
  {
    assert c in Holders(s.conns, id);
  }

  lemma BuildFailsSettled(s: State, c: ConnId, id: SubId)
    requires Settled(s, id) && Enabled(s, BuildFails(c))
    ensures Settled(Next(s, BuildFails(c)), id)
  {
    Ledger(s, BuildFails(c), id);
    if s.conns[c].dispatcher.id == id {
      HolderHasCopy(s, c, id);
    }
  }

  lemma MarkSettled(s: State, c: ConnId, id: SubId)
    requires Settled(s, id) && Enabled(s, Mark(c))
    ensures Settled(Next(s, Mark(c)), id)
  {
    Ledger(s, Mark(c), id);
  }

  lemma FinalizeSettled(s: State, c: ConnId, id: SubId)
    requires Settled(s, id) && Enabled(s, Finalize(c))
    ensures Settled(Next(s, Finalize(c)), id)
  {
    Ledger(s, Finalize(c), id);
    if s.conns[c].reader.id == id {
      assert Past(s.conns[c], id);
    }
  }

  lemma ApiSettled(s: State, a: Action, id: SubId)
    requires Settled(s, id) && Calm(s) && Enabled(s, a) && IsApi(a) && !Disturbs(a)
    ensures Settled(Next(s, a), id)
  {
    Ledger(s, a, id);
    NextCalm(s, a);
  }

  lemma NextSettled(s: State, a: Action, id: SubId)
    requires Settled(s, id) && Calm(s) && Enabled(s, a) && !Disturbs(a)
    ensures Settled(Next(s, a), id)
  {
    if IsApi(a) {
      ApiSettled(s, a, id);
    } else if a.BuildFails? {
      BuildFailsSettled(s, a.c, id);
    } else if a.Mark? {
      MarkSettled(s, a.c, id);
    } else if a.Finalize? {
      FinalizeSettled(s, a.c, id);
    } else if a.Connect? {
      ConnectSettled(s, a.c, a.name, a.capacity, id);
    } else if a.Pop? {
      PopSettled(s, a.c, id);
    } else if a.Return? {
      ReturnSettled(s, a.c, id);
    } else if a.At? {
      LocalSettled(s, a.c, a.step, id);
    } else {
      TableSettled(s, a, id);
    }
  }

  lemma {:induction false} RunSettled(s: State, actions: seq<Action>, t: State, id: SubId)
    requires Settled(s, id) && Calm(s) && Runs(s, actions, t) && Undisturbed(actions)
    ensures Settled(t, id)
    decreases |actions|
  {
    if actions != [] {
      assert actions[0] in actions;
      NextSettled(s, actions[0], id);
      NextCalm(s, actions[0]);
      RunSettled(Next(s, actions[0]), actions[1..], t, id);
    }
  }

  // While serving, what covers a PENDING row is a copy.
  lemma CoveredHasCopy(s: State, id: SubId)
    requires s.phase == Serving && Covered(s, id)
    ensures Copies(s, id) > 0
  {
    if Held(s.conns, id) {
      var c :| c in s.conns && Holds(s.conns[c], id);
      HolderHasCopy(s, c, id);
    }
  }

  /** Exactly once: in a run without rejudge, scan, disconnect and restart a submission is PENDING, has
      one copy and was never dispatched, or it is not PENDING, has no copy and was dispatched exactly
      once. */
  lemma DeliveredOnce(actions: seq<Action>, t: State, id: SubId)
    requires Runs(INIT, actions, t) && Undisturbed(actions) && id in t.db
    ensures Copies(t, id) + TimesDispatched(INIT, actions, id) == 1
    ensures t.db[id].status == Pending <==> Copies(t, id) == 1
  {
    assert Holders(INIT.conns, id) == {};
    CalmRun(INIT, actions, t, id);
    RunSettled(INIT, actions, t, id);
    RunsInv(INIT, actions, t);
    if IsPending(t.db, id) {
      CoveredHasCopy(t, id);
    }
  }

  // A second copy is reachable: a rejudge of a queued submission queues one.
  lemma SecondCopyReachable()
    ensures exists t :: Leads(INIT, t) && t.queue == [7, 7]
  {
    LeadsRefl(INIT);
    LeadsStep(INIT, INIT, Create(7));
    var s1 := INIT.(db := map[7 := FRESH_ROW], hands := multiset{Push(7)});
    assert Next(INIT, Create(7)) == s1;
    LeadsStep(INIT, s1, PushStep(7));
    var s2 := s1.(hands := multiset{}, queue := [7]);
    assert Next(s1, PushStep(7)) == s2;
    LeadsStep(INIT, s2, Rejudge(7));
    var s3 := s2.(hands := multiset{Push(7)});
    assert Next(s2, Rejudge(7)) == s3;
    LeadsStep(INIT, s3, PushStep(7));
  }
}
