/** Whole runs of the dispatch protocol: safety of every run, what the lease scanner achieves, what
    the protocol does not promise, and that every submission can still be judged. */
module DispatchRuns {
  import opened Dispatch
  import opened DispatchSafety
  import opened Options

  ghost predicate Runs(s: State, actions: seq<Action>, t: State)
    decreases |actions|
  {
    if actions == [] then s == t
    else Enabled(s, actions[0]) && Runs(Next(s, actions[0]), actions[1..], t)
  }

  lemma {:induction false} RunsInv(s: State, actions: seq<Action>, t: State)
    requires Inv(s) && Runs(s, actions, t)
    ensures Inv(t)
    decreases |actions|
  {
    if actions != [] {
      NextInv(s, actions[0]);
      RunsInv(Next(s, actions[0]), actions[1..], t);
    }
  }

  /** No submission is ever lost: after any run from the initial state, a PENDING submission is in the
      queue or in the hand of a step about to push or mark it (the boot phase, before the start-up
      query, excepted), and exactly the JUDGING ones hold a lease. */
  lemma NoSubmissionLost(actions: seq<Action>, t: State, id: SubId)
    requires Runs(INIT, actions, t) && id in t.db
    ensures t.phase != Booting && t.db[id].status == Pending ==> Covered(t, id)
    ensures t.db[id].status == Judging <==> t.db[id].lease.Some?
  {
    RunsInv(INIT, actions, t);
  }

  /** Capacity accounting of every run: an open connection's counter is the number of its tasks that
      are being sent, buffered, on the wire, at the daemon, or answered but not handled; it stays
      between zero and the announced capacity, and no daemon session runs more tasks than that. */
  lemma CapacityRespected(actions: seq<Action>, t: State, c: ConnId)
    requires Runs(INIT, actions, t) && c in t.conns
    ensures |t.conns[c].running| <= t.conns[c].capacity
    ensures !Stopping(t.conns[c]) ==>
              t.conns[c].active == Outstanding(t.conns[c]) && 0 <= t.conns[c].active <= t.conns[c].capacity
  {
    RunsInv(INIT, actions, t);
  }

  /** At most one connection of a daemon name is open, whatever the order of logins and drops. */
  lemma OneOpenConnectionPerName(actions: seq<Action>, t: State, c: ConnId, d: ConnId)
    requires Runs(INIT, actions, t) && c in t.conns && d in t.conns
    requires !t.conns[c].closed && !t.conns[d].closed && t.conns[c].name == t.conns[d].name
    ensures c == d
  {
    RunsInv(INIT, actions, t);
  }

  lemma {:induction false} RunsConcat(s: State, xs: seq<Action>, m: State, ys: seq<Action>, t: State)
    requires Runs(s, xs, m) && Runs(m, ys, t)
    ensures Runs(s, xs + ys, t)
    decreases |xs|
  {
    if xs == [] {
      assert xs + ys == ys;
    } else {
      RunsConcat(Next(s, xs[0]), xs[1..], m, ys, t);
      assert (xs + ys)[1..] == xs[1..] + ys;
    }
  }

  lemma RunsOne(s: State, a: Action)
    requires Enabled(s, a)
    ensures Runs(s, [a], Next(s, a))
  {
  }

  // ---------------------------------------------------------------- every submission can be judged

  ghost predicate Leads(s: State, t: State) { exists actions :: Runs(s, actions, t) }

  lemma LeadsStep(s: State, m: State, a: Action)
    requires Leads(s, m) && Enabled(m, a)
    ensures Leads(s, Next(m, a))
  {
    var xs :| Runs(s, xs, m);
    RunsOne(m, a);
    RunsConcat(s, xs, m, [a], Next(m, a));
  }

  lemma LeadsRefl(s: State)
    ensures Leads(s, s)
  {
    assert Runs(s, [], s);
  }

  lemma LeadsTrans(s: State, m: State, t: State)
    requires Leads(s, m) && Leads(m, t)
    ensures Leads(s, t)
  {
    var xs, ys :| Runs(s, xs, m) && Runs(m, ys, t);
    RunsConcat(s, xs, m, ys, t);
  }

  // The state in which connection c is k and all others are as in `conns`.
  function With(s: State, c: ConnId, k: Conn): State { s.(conns := s.conns[c := k]) }

  lemma LeadsLocal(s0: State, s: State, c: ConnId, k: Conn, a: LocalAction)
    requires Leads(s0, With(s, c, k)) && LocalEnabled(k, a)
    ensures Leads(s0, With(s, c, LocalNext(k, a)))
  {
    LeadsStep(s0, With(s, c, k), At(c, a));
    assert s.conns[c := k][c := LocalNext(k, a)] == s.conns[c := LocalNext(k, a)];
  }

  // The shared steps of a connection, each from and to a state in this form.
  lemma LeadsPop(s0: State, s: State, c: ConnId, k: Conn)
    requires Leads(s0, With(s, c, k)) && k.dispatcher == Ready && s.queue != []
    ensures Leads(s0, With(s.(queue := s.queue[1..]), c, k.(dispatcher := Holding(s.queue[0]))))
  {
    LeadsStep(s0, With(s, c, k), Pop(c));
    var k1 := k.(dispatcher := Holding(s.queue[0]));
    assert s.conns[c := k][c := k1] == s.conns[c := k1];
  }

  lemma LeadsMark(s0: State, s: State, c: ConnId, k: Conn)
    requires Leads(s0, With(s, c, k)) && k.dispatcher.Holding? && k.dispatcher.id in s.db
    ensures Leads(s0, With(s.(db := s.db[k.dispatcher.id := Row(Judging, Some(s.now + LEASE))]),
                           c, k.(dispatcher := Marked(k.dispatcher.id))))
  {
    LeadsStep(s0, With(s, c, k), Mark(c));
    var k1 := k.(dispatcher := Marked(k.dispatcher.id));
    assert s.conns[c := k][c := k1] == s.conns[c := k1];
  }

  lemma LeadsTrack(s0: State, s: State, c: ConnId, k: Conn)
    requires Leads(s0, With(s, c, k)) && k.dispatcher.Counted?
    ensures Leads(s0, With(s.(inflight := s.inflight[k.dispatcher.id := k.name]),
                           c, k.(dispatcher := Sending(k.dispatcher.id))))
  {
    LeadsStep(s0, With(s, c, k), Track(c));
    var k1 := k.(dispatcher := Sending(k.dispatcher.id));
    assert s.conns[c := k][c := k1] == s.conns[c := k1];
  }

  lemma LeadsBuildFailure(s0: State, s: State, c: ConnId, k: Conn)
    requires Leads(s0, With(s, c, k)) && k.dispatcher.Holding?
    ensures Leads(s0, With(s.(db := Write(s.db, k.dispatcher.id, FRESH_ROW)),
                           c, k.(dispatcher := Returning(k.dispatcher.id))))
  {
    LeadsStep(s0, With(s, c, k), BuildFails(c));
    var k1 := k.(dispatcher := Returning(k.dispatcher.id));
    assert s.conns[c := k][c := k1] == s.conns[c := k1];
  }

  lemma LeadsReturn(s0: State, s: State, c: ConnId, k: Conn)
    requires Leads(s0, With(s, c, k)) && k.dispatcher.Returning?
    ensures Leads(s0, With(s.(queue := s.queue + [k.dispatcher.id]), c, k.(dispatcher := Idle)))
  {
    LeadsStep(s0, With(s, c, k), Return(c));
    assert s.conns[c := k][c := k.(dispatcher := Idle)] == s.conns[c := k.(dispatcher := Idle)];
  }

  lemma LeadsUntrack(s0: State, s: State, c: ConnId, k: Conn)
    requires Leads(s0, With(s, c, k)) && k.reader.GotResult?
    ensures Leads(s0, With(s.(inflight := s.inflight - {k.reader.id}),
                           c, k.(reader := Untracked(k.reader.id, k.reader.verdict))))
  {
    LeadsStep(s0, With(s, c, k), Untrack(c));
    var k1 := k.(reader := Untracked(k.reader.id, k.reader.verdict));
    assert s.conns[c := k][c := k1] == s.conns[c := k1];
  }

  lemma LeadsFinalize(s0: State, s: State, c: ConnId, k: Conn)
    requires Leads(s0, With(s, c, k)) && k.reader.Untracked?
    ensures Leads(s0, With(s.(db := Write(s.db, k.reader.id, Row(Final(k.reader.verdict), None))),
                           c, k.(reader := Reading)))
  {
    LeadsStep(s0, With(s, c, k), Finalize(c));
    assert s.conns[c := k][c := k.(reader := Reading)] == s.conns[c := k.(reader := Reading)];
  }

  // From a popped id to the in-flight table.
  lemma Dispatches(s: State, c: ConnId)
    requires c in s.conns && s.conns[c].dispatcher.Holding? && s.conns[c].dispatcher.id in s.db
    ensures
      var k, id := s.conns[c], s.conns[c].dispatcher.id;
      Leads(s, With(s.(db := s.db[id := Row(Judging, Some(s.now + LEASE))], inflight := s.inflight[id := k.name]),
                    c, k.(dispatcher := Sending(id), active := k.active + 1)))
  {
    var k, id := s.conns[c], s.conns[c].dispatcher.id;
    var s1 := s.(db := s.db[id := Row(Judging, Some(s.now + LEASE))]);
    LeadsRefl(s);
    assert With(s, c, k) == s;
    LeadsMark(s, s, c, k);
    LeadsLocal(s, s1, c, k.(dispatcher := Marked(id)), Count);
    LeadsTrack(s, s1, c, k.(dispatcher := Counted(id), active := k.active + 1));
  }

  // From the daemon's answer on the wire to the verdict in the row.
  lemma Concludes(s: State, c: ConnId)
    requires c in s.conns && LocalEnabled(s.conns[c], Receive)
    ensures
      var k, r := s.conns[c], s.conns[c].toApi[0];
      Leads(s, With(s.(inflight := s.inflight - {r.0}, db := Write(s.db, r.0, Row(Final(r.1), None))),
                    c, k.(active := k.active - 1, toApi := k.toApi[1..])))
  {
    var k, r := s.conns[c], s.conns[c].toApi[0];
    var k1 := k.(active := k.active - 1, toApi := k.toApi[1..]);
    LeadsRefl(s);
    assert With(s, c, k) == s;
    LeadsLocal(s, s, c, k, Receive);
    LeadsUntrack(s, s, c, k1.(reader := GotResult(r.0, r.1)));
    LeadsFinalize(s, s.(inflight := s.inflight - {r.0}), c, k1.(reader := Untracked(r.0, r.1)));
  }

  // One idle connection of capacity one takes the head of the queue.
  lemma TakeHead(s: State, c: ConnId, name: string)
    requires c in s.conns && s.conns[c] == NewConn(name, 1) && s.queue != []
    ensures Leads(s, With(s.(queue := s.queue[1..]), c, NewConn(name, 1).(dispatcher := Holding(s.queue[0]))))
  {
    var k := NewConn(name, 1);
    LeadsRefl(s);
    assert With(s, c, k) == s;
    LeadsLocal(s, s, c, k, Check);
    LeadsPop(s, s, c, k.(dispatcher := Ready));
  }

  // ... and marks it.
  lemma MarkHead(s: State, c: ConnId, name: string)
    requires c in s.conns && s.conns[c] == NewConn(name, 1) && s.queue != [] && s.queue[0] in s.db
    ensures
      var x := s.queue[0];
      Leads(s, With(s.(queue := s.queue[1..], db := s.db[x := Row(Judging, Some(s.now + LEASE))]),
                    c, NewConn(name, 1).(dispatcher := Marked(x))))
  {
    TakeHead(s, c, name);
    LeadsMark(s, s.(queue := s.queue[1..]), c, NewConn(name, 1).(dispatcher := Holding(s.queue[0])));
  }

  // From the queue to the send buffer.
  lemma SendHead(s: State, c: ConnId, name: string)
    requires c in s.conns && s.conns[c] == NewConn(name, 1) && s.queue != [] && s.queue[0] in s.db
    ensures
      var x := s.queue[0];
      Leads(s, With(s.(queue := s.queue[1..], db := s.db[x := Row(Judging, Some(s.now + LEASE))],
                       inflight := s.inflight[x := name]), c, NewConn(name, 1).(active := 1, buffer := [x])))
  {
    var x, k := s.queue[0], NewConn(name, 1).(active := 1);
    TakeHead(s, c, name);
    var s1 := With(s.(queue := s.queue[1..]), c, NewConn(name, 1).(dispatcher := Holding(x)));
    Dispatches(s1, c);
    var s2 := s1.(db := s1.db[x := Row(Judging, Some(s1.now + LEASE))], inflight := s1.inflight[x := name]);
    LeadsTrans(s, s1, With(s2, c, k.(dispatcher := Sending(x))));
    LeadsLocal(s, s2, c, k.(dispatcher := Sending(x)), Send);
    assert LocalNext(k.(dispatcher := Sending(x)), Send) == k.(buffer := [x]);
    assert s2.conns[c := k.(buffer := [x])] == s.conns[c := k.(buffer := [x])];
  }

  // The daemon judges the one buffered task and answers.
  lemma DaemonTakes(s: State, c: ConnId, name: string, x: SubId)
    requires c in s.conns && s.conns[c] == NewConn(name, 1).(active := 1, buffer := [x])
    ensures Leads(s, With(s, c, NewConn(name, 1).(active := 1, running := [x])))
  {
    var k := NewConn(name, 1).(active := 1);
    LeadsRefl(s);
    assert With(s, c, k.(buffer := [x])) == s;
    LeadsLocal(s, s, c, k.(buffer := [x]), Deliver);
    assert LocalNext(k.(buffer := [x]), Deliver) == k.(toDaemon := [x]);
    LeadsLocal(s, s, c, k.(toDaemon := [x]), DaemonReceive);
    LeadsLocal(s, s, c, k.(waiting := Some(x)), DaemonStart);
  }

  lemma DaemonAnswers(s: State, c: ConnId, name: string, x: SubId, verdict: Verdict)
    requires c in s.conns && s.conns[c] == NewConn(name, 1).(active := 1, running := [x])
    ensures Leads(s, With(s, c, NewConn(name, 1).(active := 1, toApi := [(x, verdict)])))
  {
    var k := NewConn(name, 1).(active := 1);
    LeadsRefl(s);
    assert With(s, c, k.(running := [x])) == s;
    LeadsLocal(s, s, c, k.(running := [x]), DaemonFinish(0, verdict));
    var k1 := k.(releasing := 1, toApi := [(x, verdict)]);
    assert LocalNext(k.(running := [x]), DaemonFinish(0, verdict)) == k1;
    LeadsLocal(s, s, c, k1, DaemonRelease);
  }

  lemma DaemonJudges(s: State, c: ConnId, name: string, x: SubId, verdict: Verdict)
    requires c in s.conns && s.conns[c] == NewConn(name, 1).(active := 1, buffer := [x])
    ensures Leads(s, With(s, c, NewConn(name, 1).(active := 1, toApi := [(x, verdict)])))
  {
    DaemonTakes(s, c, name, x);
    var s1 := With(s, c, NewConn(name, 1).(active := 1, running := [x]));
    DaemonAnswers(s1, c, name, x, verdict);
    var t := With(s1, c, NewConn(name, 1).(active := 1, toApi := [(x, verdict)]));
    LeadsTrans(s, s1, t);
    assert t.conns == s.conns[c := t.conns[c]];
  }

  // An idle connection turns the head of the queue into a verdict and is idle again.
  lemma JudgeHead(s: State, c: ConnId, name: string, verdict: Verdict) returns (t: State)
    requires c in s.conns && s.conns[c] == NewConn(name, 1)
    requires s.queue != [] && s.queue[0] in s.db
    ensures Leads(s, t)
    ensures t.queue == s.queue[1..] && t.db == s.db[s.queue[0] := Row(Final(verdict), None)]
    ensures c in t.conns && t.conns[c] == NewConn(name, 1)
  {
    var x := s.queue[0];
    var s2 := With(s.(queue := s.queue[1..], db := s.db[x := Row(Judging, Some(s.now + LEASE))],
                      inflight := s.inflight[x := name]), c, NewConn(name, 1).(active := 1, buffer := [x]));
    SendHead(s, c, name);
    var s3 := With(s2, c, NewConn(name, 1).(active := 1, toApi := [(x, verdict)]));
    DaemonJudges(s2, c, name, x, verdict);
    t := With(s3.(inflight := s3.inflight - {x}, db := s3.db[x := Row(Final(verdict), None)]), c, NewConn(name, 1));
    Concludes(s3, c);
    assert s3.conns[c].toApi[1..] == [];
    LeadsTrans(s, s2, s3);
    LeadsTrans(s, s3, t);
  }

  // An idle connection drains the queue up to and including an id.
  lemma {:induction false} Drain(s: State, c: ConnId, name: string, id: SubId, verdict: Verdict)
    requires c in s.conns && s.conns[c] == NewConn(name, 1)
    requires KnownIds(s.db.Keys, s.queue) && id in s.queue
    ensures exists t :: Leads(s, t) && id in t.db && t.db[id].status == Final(verdict)
    decreases |s.queue|
  {
    var t := JudgeHead(s, c, name, verdict);
    if s.queue[0] != id {
      Drain(t, c, name, id, verdict);
      var u :| Leads(t, u) && id in u.db && u.db[id].status == Final(verdict);
      LeadsTrans(s, t, u);
    }
  }

  // A connection id that was never used, and a daemon name nobody uses.
  lemma FreshConn(conns: map<ConnId, Conn>) returns (c: ConnId)
    ensures c !in conns
  {
    c := 0;
    var rest := conns.Keys;
    while rest != {}
      invariant forall d | d in conns :: d in rest || d < c
      decreases rest
    {
      var d :| d in rest;
      rest := rest - {d};
      c := if d < c then c else d + 1;
    }
  }

  // Serving, with the id queued: a new daemon judges it.
  lemma QueuedIsJudged(s: State, id: SubId, verdict: Verdict)
    requires Inv(s) && s.phase == Serving && id in s.queue
    ensures exists t :: Leads(s, t) && id in t.db && t.db[id].status == Final(verdict)
  {
    var c := FreshConn(s.conns);
    var a := Connect(c, "fresh", 1);
    LeadsRefl(s);
    LeadsStep(s, s, a);
    var s1 := Next(s, a);
    Drain(s1, c, "fresh", id, verdict);
    var t :| Leads(s1, t) && id in t.db && t.db[id].status == Final(verdict);
    LeadsTrans(s, s1, t);
  }

  lemma SetAsSeq(ids: set<SubId>) returns (rows: seq<SubId>)
    ensures (set id | id in rows) == ids
  {
    rows := [];
    var rest := ids;
    while rest != {}
      invariant rest <= ids
      invariant forall x :: x in rows <==> x in ids && x !in rest
      decreases rest
    {
      var id :| id in rest;
      rest := rest - {id};
      rows := rows + [id];
    }
  }

  // The start-up query and the pushes that follow it end in service, with the rows untouched.
  lemma {:induction false} RestoreAll(s: State)
    requires Inv(s) && s.phase.Restoring?
    ensures exists t :: Leads(s, t) && Inv(t) && t.phase == Serving && t.db == s.db
    decreases |s.phase.left|
  {
    var t := Next(s, RestoreOne);
    NextInv(s, RestoreOne);
    LeadsRefl(s);
    LeadsStep(s, s, RestoreOne);
    if s.phase.left != [] {
      RestoreAll(t);
      var u :| Leads(t, u) && Inv(u) && u.phase == Serving && u.db == t.db;
      LeadsTrans(s, t, u);
    }
  }

  lemma BootUp(s: State)
    requires Inv(s)
    ensures exists t :: Leads(s, t) && Inv(t) && t.phase == Serving && t.db == s.db
  {
    LeadsRefl(s);
    if s.phase == Booting {
      var rows := SetAsSeq(PendingIds(s));
      var t := Next(s, LoadPending(rows));
      NextInv(s, LoadPending(rows));
      LeadsStep(s, s, LoadPending(rows));
      RestoreAll(t);
      var u :| Leads(t, u) && Inv(u) && u.phase == Serving && u.db == t.db;
      LeadsTrans(s, t, u);
    } else if s.phase.Restoring? {
      RestoreAll(s);
    }
  }

  ghost predicate GetsQueued(s: State, id: SubId) {
    exists t :: Leads(s, t) && Inv(t) && t.phase == Serving && id in t.queue
  }

  lemma GetsQueuedLater(s: State, a: Action, id: SubId)
    requires Enabled(s, a) && GetsQueued(Next(s, a), id)
    ensures GetsQueued(s, id)
  {
    LeadsRefl(s);
    LeadsStep(s, s, a);
    var t :| Leads(Next(s, a), t) && Inv(t) && t.phase == Serving && id in t.queue;
    LeadsTrans(s, Next(s, a), t);
  }

  lemma PushQueues(s: State, id: SubId)
    requires Inv(s) && s.phase == Serving && Push(id) in s.hands
    ensures GetsQueued(s, id)
  {
    var t := Next(s, PushStep(id));
    NextInv(s, PushStep(id));
    LeadsRefl(t);
    GetsQueuedLater(s, PushStep(id), id);
  }

  // A choice the scan's LIMIT may make that includes a given row.
  lemma PickScan(all: set<SubId>, id: SubId, n: nat) returns (ids: set<SubId>)
    requires id in all && 1 <= n <= |all|
    ensures id in ids && ids <= all && |ids| == n
  {
    ids := all;
    while |ids| > n
      invariant id in ids && ids <= all && |ids| >= n
      decreases |ids|
    {
      assert |ids - {id}| > 0;
      var x :| x in ids - {id};
      ids := ids - {x};
    }
  }

  // A JUDGING row whose daemon stays silent is reclaimed by a scan after its lease is over-age.
  lemma JudgingGetsQueued(s: State, id: SubId)
    requires Inv(s) && s.phase == Serving && id in s.db && s.db[id].status == Judging
    ensures GetsQueued(s, id)
  {
    var wait := Tick(2 * LEASE + 1);
    var s1 := Next(s, wait);
    NextInv(s, wait);
    assert id in ExpiredIds(s1);
    var ids := PickScan(ExpiredIds(s1), id, ScanSize(ExpiredIds(s1)));
    var s2 := Next(s1, Scan(ids));
    NextInv(s1, Scan(ids));
    assert Reclaim(id) in ReclaimHands(ids);
    var s3 := Next(s2, ReclaimStep(id));
    NextInv(s2, ReclaimStep(id));
    PushQueues(s3, id);
    GetsQueuedLater(s2, ReclaimStep(id), id);
    GetsQueuedLater(s1, Scan(ids), id);
    GetsQueuedLater(s, wait, id);
  }

  // A dispatch loop that holds the id marks it or gives it back.
  lemma HeldGetsQueued(s: State, c: ConnId, id: SubId)
    requires Inv(s) && s.phase == Serving && IsPending(s.db, id) && c in s.conns && Holds(s.conns[c], id)
    ensures GetsQueued(s, id)
  {
    if s.conns[c].dispatcher.Holding? {
      NextInv(s, Mark(c));
      JudgingGetsQueued(Next(s, Mark(c)), id);
      GetsQueuedLater(s, Mark(c), id);
    } else {
      var t := Next(s, Return(c));
      NextInv(s, Return(c));
      LeadsRefl(t);
      assert t.queue[|s.queue|] == id;
      GetsQueuedLater(s, Return(c), id);
    }
  }

  lemma PendingGetsQueued(s: State, id: SubId)
    requires Inv(s) && s.phase == Serving && IsPending(s.db, id)
    ensures GetsQueued(s, id)
  {
    if id in s.queue {
      LeadsRefl(s);
    } else if Push(id) in s.hands {
      PushQueues(s, id);
    } else {
      var c :| c in s.conns && Holds(s.conns[c], id);
      HeldGetsQueued(s, c, id);
    }
  }

  /** From every reachable state, whatever was lost on the way (connections, messages, the queue
      before the start-up query), every submission without a verdict can still get any verdict,
      with no rejudge and no restart: the scanner, time and one working daemon are enough. */
  lemma EverySubmissionCanBeJudged(actions: seq<Action>, s: State, id: SubId, verdict: Verdict)
    requires Runs(INIT, actions, s) && id in s.db && !s.db[id].status.Final?
    ensures exists t :: Leads(s, t) && id in t.db && t.db[id].status == Final(verdict)
  {
    RunsInv(INIT, actions, s);
    BootUp(s);
    var s1 :| Leads(s, s1) && Inv(s1) && s1.phase == Serving && s1.db == s.db;
    if s.db[id].status == Pending {
      PendingGetsQueued(s1, id);
    } else {
      JudgingGetsQueued(s1, id);
    }
    var s2 :| Leads(s1, s2) && Inv(s2) && s2.phase == Serving && id in s2.queue;
    QueuedIsJudged(s2, id, verdict);
    var t :| Leads(s2, t) && id in t.db && t.db[id].status == Final(verdict);
    LeadsTrans(s, s1, s2);
    LeadsTrans(s, s2, t);
  }
}
