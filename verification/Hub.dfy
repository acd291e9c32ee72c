/** The hub's own code (backend/internal/judgehub/hub.go, tasks.go) over its mutable fields.  Each
    method states its whole effect and is shown to be a run of the protocol's atomic steps, so what
    DispatchRuns proves of all runs holds of it; other goroutines may run between those steps. */
module HubCode {
  import opened Dispatch
  import opened DispatchRuns
  import opened Options
  import opened Ordering

  datatype Outcome = Requeued | Sent | Stopped | Blocked

  class Hub {
    var now: int
    var phase: Phase
    var db: map<SubId, Row>
    var queue: seq<SubId>
    var conns: map<ConnId, Conn>
    var names: map<string, ConnId>
    var inflight: map<SubId, string>
    ghost var hands: multiset<Hand>      // obligations of the other goroutines

    ghost function Snapshot(): State
      reads this
    {
      State(now, phase, db, queue, conns, names, inflight, hands)
    }

    // A new hub over existing rows: judgehub.New after a restart.
    constructor (now: int, rows: map<SubId, Row>)
      ensures Snapshot() == State(now, Booting, rows, [], map[], map[], map[], multiset{})
    {
      this.now, this.phase, this.db, this.queue := now, Booting, rows, [];
      this.conns, this.names, this.inflight, this.hands := map[], map[], map[], multiset{};
    }

    /** requeue: the row goes back to PENDING without a lease and its id to the end of the queue. */
    method Requeue(id: SubId)
      modifies this`db, this`queue
      ensures db == Write(old(db), id, FRESH_ROW) && queue == old(queue) + [id]
    {
      if id in db {
        db := db[id := FRESH_ROW];
      }
      queue := queue + [id];
    }

    // The query of the scanner: over-age JUDGING rows in any order, at most 100.
    method FindExpired() returns (subs: seq<SubId>)
      ensures |subs| == ScanSize(ExpiredRows(db, now))
      ensures Members(subs) <= ExpiredRows(db, now) && NoRepeats(subs)
    {
      subs := [];
      var rest := ExpiredRows(db, now);
      while rest != {} && |subs| < SCAN_LIMIT
        invariant |subs| <= SCAN_LIMIT && |subs| + |rest| == |ExpiredRows(db, now)|
        invariant rest <= ExpiredRows(db, now)
        invariant forall i | 0 <= i < |subs| :: subs[i] in ExpiredRows(db, now) && subs[i] !in rest
        invariant forall i, j | 0 <= i < j < |subs| :: subs[i] != subs[j]
        decreases rest
      {
        var id :| id in rest;
        subs := subs + [id];
        rest := rest - {id};
      }
    }

    /** requeueExpired: one scan reclaims exactly the rows it found, as many as its limit allows; each
        is PENDING again and queued, and no other row changes. */
    method RequeueExpired() returns (reclaimed: seq<SubId>)
      modifies this`db, this`queue
      ensures |reclaimed| == ScanSize(old(ExpiredRows(db, now)))
      ensures Members(reclaimed) <= old(ExpiredRows(db, now))
      ensures NoRepeats(reclaimed)
      ensures queue == old(queue) + reclaimed && db == Reset(old(db), Members(reclaimed))
      ensures Leads(old(Snapshot()), Snapshot())
    {
      var subs := FindExpired();
      ScanLeads(Snapshot(), subs);
      assert Reset(db, Members([])) == db;
      for i := 0 to |subs|
        invariant queue == old(queue) + subs[..i] && db == Reset(old(db), Members(subs[..i]))
      {
        assert subs[i] in Members(subs);
        ResetStep(old(db), subs, i);
        Requeue(subs[i]);
      }
      assert subs[..|subs|] == subs;
      return subs;
    }

    /** RequeuePending: at start-up every PENDING row is pushed once, in id order, before service begins. */
    method RequeuePending() returns (rows: seq<SubId>)
      requires phase == Booting
      modifies this`queue, this`phase
      ensures phase == Serving && queue == old(queue) + rows
      ensures Members(rows) == PendingIds(Snapshot()) && Ascending(rows)
      ensures Leads(old(Snapshot()), Snapshot())
    {
      rows := SortedIds(set id | id in db && db[id].status == Pending);
      assert Members(rows) == PendingIds(Snapshot());
      LeadsRefl(Snapshot());
      LeadsStep(Snapshot(), Snapshot(), LoadPending(rows));
      phase := Restoring(rows);
      RestoreRows(rows, old(Snapshot()));
    }

    // The pushes of the restore.
    method RestoreRows(rows: seq<SubId>, ghost start: State)
      requires phase == Restoring(rows) && Leads(start, Snapshot())
      modifies this`queue, this`phase
      ensures phase == Serving && queue == old(queue) + rows && Leads(start, Snapshot())
    {
      ghost var before := queue;
      for i := 0 to |rows|
        invariant phase == Restoring(rows[i..]) && queue == before + rows[..i]
        invariant Leads(start, Snapshot())
      {
        LeadsStep(start, Snapshot(), RestoreOne);
        PrefixGrows(before, rows, i);
        queue := queue + [rows[i]];
        phase := Restoring(rows[i + 1..]);
      }
      LeadsStep(start, Snapshot(), RestoreOne);
      assert rows[..|rows|] == rows;
      phase := Serving;
    }

    /** registerConn: a duplicate login closes the stale connection and takes over the name. */
    method RegisterConn(c: ConnId, name: string, capacity: nat)
      requires phase == Serving && c !in conns
      modifies this`conns, this`names
      ensures Snapshot() == Next(old(Snapshot()), Connect(c, name, capacity))
      ensures conns[c] == NewConn(name, capacity) && names == old(names)[name := c]
      ensures Leads(old(Snapshot()), Snapshot())
    {
      LeadsRefl(Snapshot());
      LeadsStep(Snapshot(), Snapshot(), Connect(c, name, capacity));
      if name in names && names[name] in conns {
        conns := conns[names[name] := conns[names[name]].(closed := true)];
      }
      conns := conns[c := NewConn(name, capacity)];
      names := names[name := c];
    }

    /** dropConn: everything in flight under the daemon's name leaves the table, and exactly those of
        them that are still JUDGING are PENDING and queued again. */
    method DropConn(c: ConnId) returns (orphaned: seq<SubId>)
      requires Enabled(Snapshot(), Drop(c))
      modifies this`conns, this`names, this`inflight, this`db, this`queue
      ensures conns == old(conns)[c := old(conns)[c].(closed := true, dropped := true)]
      ensures names == if old(conns[c].name in names && names[conns[c].name] == c)
                       then old(names) - {old(conns)[c].name} else old(names)
      ensures inflight == old(inflight) - old(OwnedBy(Snapshot(), conns[c].name))
      ensures Members(orphaned) == StillJudging(old(db), old(OwnedBy(Snapshot(), conns[c].name)))
      ensures queue == old(queue) + orphaned && db == Reset(old(db), Members(orphaned))
      ensures Leads(old(Snapshot()), Snapshot())
    {
      var k := conns[c];
      ghost var start := Snapshot();
      var owned := set id | id in inflight && inflight[id] == k.name;
      assert owned == OwnedBy(start, k.name);
      conns := conns[c := k.(closed := true, dropped := true)];
      if k.name in names && names[k.name] == c {
        names := names - {k.name};
      }
      inflight := inflight - owned;
      ghost var visited;
      orphaned, visited := RequeueOrphans(owned);
      DropLeads(start, c, visited);
    }

    // The loop over the orphans, in the table's own (arbitrary) order.
    method RequeueOrphans(owned: set<SubId>) returns (orphaned: seq<SubId>, ghost visited: seq<SubId>)
      modifies this`db, this`queue
      ensures NoRepeats(visited) && Members(visited) == owned
      ensures orphaned == JudgingIn(old(db), visited)
      ensures queue == old(queue) + orphaned && db == Reset(old(db), Members(orphaned))
    {
      orphaned, visited := [], [];
      ghost var start := Snapshot();
      var rest := owned;
      while rest != {}
        invariant NoRepeats(visited) && Members(visited) == owned - rest && rest <= owned
        invariant orphaned == JudgingIn(start.db, visited)
        invariant queue == start.queue + orphaned && db == Reset(start.db, Members(orphaned))
        decreases rest
      {
        var id :| id in rest;
        OrphanStepEffect(start.db, visited, id);
        MembersAppend(visited, id);
        rest := rest - {id};
        visited := visited + [id];
        if id in db && db[id].status == Judging {
          Requeue(id);
          orphaned := orphaned + [id];
        }
      }
    }

    /** handleResult and finalize: the counter goes down, the id leaves the table, and whatever its row
        says now it gets the daemon's verdict and no lease. */
    method HandleResult(c: ConnId)
      requires c in conns && LocalEnabled(conns[c], LocalAction.Receive)
      modifies this`conns, this`inflight, this`db
      ensures
        var r := old(conns)[c].toApi[0];
        && conns == old(conns)[c := old(conns)[c].(active := old(conns)[c].active - 1,
                                                   toApi := old(conns)[c].toApi[1..])]
        && inflight == old(inflight) - {r.0} && db == Write(old(db), r.0, Row(Final(r.1), None))
      ensures Leads(old(Snapshot()), Snapshot())
    {
      var k, r := conns[c], conns[c].toApi[0];
      Concludes(Snapshot(), c);
      conns := conns[c := k.(active := k.active - 1, toApi := k.toApi[1..])];
      inflight := inflight - {r.0};
      if r.0 in db {
        db := db[r.0 := Row(Final(r.1), None)];
      }
    }

    /** The failure branch of dispatchOne: the row is PENDING and its id at the end of the queue. */
    method RequeueUnbuilt(c: ConnId)
      requires c in conns && conns[c].dispatcher.Holding?
      modifies this`conns, this`db, this`queue
      ensures var id := old(conns)[c].dispatcher.id;
              && db == Write(old(db), id, FRESH_ROW) && queue == old(queue) + [id]
              && conns == old(conns)[c := old(conns)[c].(dispatcher := Idle)]
      ensures Leads(old(Snapshot()), Snapshot())
    {
      var k, id := conns[c], conns[c].dispatcher.id;
      ghost var s := Snapshot();
      LeadsRefl(s);
      assert With(s, c, k) == s;
      LeadsBuildFailure(s, s, c, k);
      LeadsReturn(s, s.(db := Write(s.db, id, FRESH_ROW)), c, k.(dispatcher := Returning(id)));
      Requeue(id);
      conns := conns[c := k.(dispatcher := Idle)];
    }

    /** dispatchOne, from a popped id: a failed build puts it back; otherwise the row is JUDGING under a
        fresh lease, counted and in the table, and either reaches the send buffer or is left to the
        lease when the connection stops. */
    method DispatchOne(c: ConnId, buildFails: bool, stopSeen: bool) returns (outcome: Outcome)
      requires c in conns && conns[c].dispatcher.Holding? && (conns[c].dispatcher.id !in db ==> buildFails)
      requires stopSeen ==> Stopping(conns[c])
      modifies this`conns, this`inflight, this`db, this`queue
      ensures
        var k, id := old(conns)[c], old(conns)[c].dispatcher.id;
        && outcome == (if buildFails then Requeued else if stopSeen then Stopped
                       else if |k.buffer| < SEND_BUFFER then Sent else Blocked)
        && db == Write(old(db), id, if buildFails then FRESH_ROW else Row(Judging, Some(now + LEASE)))
        && queue == (if buildFails then old(queue) + [id] else old(queue))
        && inflight == (if buildFails then old(inflight) else old(inflight)[id := k.name])
        && conns == old(conns)[c := match outcome
                                    case Requeued => k.(dispatcher := Idle)
                                    case Stopped => k.(dispatcher := Exited, active := k.active + 1)
                                    case Blocked => k.(dispatcher := Sending(id), active := k.active + 1)
                                    case Sent =>
                                      k.(dispatcher := Idle, active := k.active + 1, buffer := k.buffer + [id])]
      ensures Leads(old(Snapshot()), Snapshot())
    {
      if buildFails {
        RequeueUnbuilt(c);
        outcome := Requeued;
      } else {
        outcome := DispatchBuilt(c, stopSeen);
      }
    }

    /** The rest of dispatchOne, once the task is built. */
    method DispatchBuilt(c: ConnId, stopSeen: bool) returns (outcome: Outcome)
      requires c in conns && conns[c].dispatcher.Holding? && conns[c].dispatcher.id in db
      requires stopSeen ==> Stopping(conns[c])
      modifies this`conns, this`inflight, this`db
      ensures
        var k, id := old(conns)[c], old(conns)[c].dispatcher.id;
        var k1 := k.(dispatcher := Sending(id), active := k.active + 1);
        && outcome == (if stopSeen then Stopped else if |k.buffer| < SEND_BUFFER then Sent else Blocked)
        && db == old(db)[id := Row(Judging, Some(now + LEASE))] && inflight == old(inflight)[id := k.name]
        && conns == old(conns)[c := if outcome == Stopped then k1.(dispatcher := Exited)
                                    else if outcome == Blocked then k1
                                    else k1.(dispatcher := Idle, buffer := k.buffer + [id])]
      ensures Leads(old(Snapshot()), Snapshot())
    {
      var k, id := conns[c], conns[c].dispatcher.id;
      ghost var s := Snapshot();
      Dispatches(s, c);
      db := db[id := Row(Judging, Some(now + LEASE))];
      inflight := inflight[id := k.name];
      ghost var s1 := s.(db := db, inflight := inflight);
      var k1 := k.(active := k.active + 1, dispatcher := Sending(id));
      if stopSeen {
        LeadsLocal(s, s1, c, k1, Leave);
        conns := conns[c := k1.(dispatcher := Exited)];
        outcome := Stopped;
      } else if |k.buffer| < SEND_BUFFER {
        LeadsLocal(s, s1, c, k1, LocalAction.Send);
        conns := conns[c := k1.(dispatcher := Idle, buffer := k.buffer + [id])];
        outcome := Sent;
      } else {
        conns := conns[c := k1];
        outcome := Blocked;
      }
    }

    /** Lease recovery: with nothing else happening, each tick of the scanner takes up to 100 over-age
        rows out of the set, so it reaches zero, and every one of them is PENDING and queued. */
    method ScannerTicks(n: nat)
      modifies this`db, this`queue
      ensures |ExpiredRows(db, now)| ==
              if old(|ExpiredRows(db, now)|) <= n * SCAN_LIMIT then 0
              else old(|ExpiredRows(db, now)|) - n * SCAN_LIMIT
      ensures forall id | id in old(ExpiredRows(db, now)) && id !in ExpiredRows(db, now) ::
                id in db && db[id] == FRESH_ROW && id in queue
      ensures ExpiredRows(db, now) <= old(ExpiredRows(db, now))
      ensures db.Keys == old(db).Keys
      ensures forall id | id in db && id !in old(ExpiredRows(db, now)) :: db[id] == old(db)[id]
      ensures Leads(old(Snapshot()), Snapshot())
    {
      ghost var start, expired := Snapshot(), ExpiredRows(db, now);
      LeadsRefl(start);
      for i := 0 to n
        invariant |ExpiredRows(db, now)| ==
                  if |expired| <= i * SCAN_LIMIT then 0 else |expired| - i * SCAN_LIMIT
        invariant ExpiredRows(db, now) <= expired && db.Keys == start.db.Keys
        invariant forall id | id in db && id !in expired :: db[id] == start.db[id]
        invariant forall id | id in expired && id !in ExpiredRows(db, now) ::
                    id in db && db[id] == FRESH_ROW && id in queue
        invariant Leads(start, Snapshot())
      {
        ghost var before := Snapshot();
        var reclaimed := RequeueExpired();
        LeadsTrans(start, before, Snapshot());
        ExpiredAfterScan(before.db, db, now, reclaimed);
      }
    }

    /** Lease recovery while the clock runs on, a different wait before each tick: once the ticks can take
        as many rows as were JUDGING at the start, every row that was over-age then is PENDING and queued.
        Only JUDGING rows are ever reset, each at most once. */
    method ScannerOverTime(waits: seq<nat>) returns (reclaimed: seq<SubId>)
      modifies this`now, this`db, this`queue
      ensures NoRepeats(reclaimed) && Members(reclaimed) <= StillJudging(old(db), old(db).Keys)
      ensures queue == old(queue) + reclaimed && db == Reset(old(db), Members(reclaimed))
      ensures |waits| * SCAN_LIMIT >= |StillJudging(old(db), old(db).Keys)| ==>
                old(ExpiredRows(db, now)) <= Members(reclaimed)
      ensures Leads(old(Snapshot()), Snapshot())
    {
      reclaimed := [];
      ghost var start, judging := Snapshot(), StillJudging(db, db.Keys);
      LeadsRefl(start);
      assert Reset(db, Members([])) == db;
      for i := 0 to |waits|
        invariant now >= start.now && queue == start.queue + reclaimed
        invariant NoRepeats(reclaimed) && Members(reclaimed) <= judging
        invariant db == Reset(start.db, Members(reclaimed))
        invariant ExpiredRows(start.db, start.now) <= Members(reclaimed) || |reclaimed| == i * SCAN_LIMIT
        invariant Leads(start, Snapshot())
      {
        LeadsStep(start, Snapshot(), Tick(waits[i]));
        now := now + waits[i];
        ghost var before := Snapshot();
        var subs := RequeueExpired();
        LeadsTrans(start, before, Snapshot());
        TickTakes(start.db, start.now, reclaimed, before.db, now, subs);
        reclaimed := reclaimed + subs;
      }
      SeqSetSize(reclaimed);
      if !(ExpiredRows(start.db, start.now) <= Members(reclaimed)) {
        ProperSubsetSize(Members(reclaimed), judging);
      }
    }
  }

  // The rows with some of them set back to PENDING.
  function Reset(db: map<SubId, Row>, ids: set<SubId>): map<SubId, Row> {
    map id | id in db :: if id in ids then FRESH_ROW else db[id]
  }

  function StillJudging(db: map<SubId, Row>, ids: set<SubId>): set<SubId> {
    set id | id in ids && id in db && db[id].status == Judging
  }

  lemma ResetStep(db: map<SubId, Row>, subs: seq<SubId>, i: nat)
    requires i < |subs| && subs[i] in db
    ensures Reset(db, Members(subs[..i]))[subs[i] := FRESH_ROW] == Reset(db, Members(subs[..i + 1]))
    ensures subs[..i + 1] == subs[..i] + [subs[i]]
  {
  }

  // Those of the ids that the rows say are JUDGING, in the same order.
  function JudgingIn(db: map<SubId, Row>, ids: seq<SubId>): seq<SubId> {
    if ids == [] then []
    else
      var last := ids[|ids| - 1];
      JudgingIn(db, ids[..|ids| - 1]) + if last in db && db[last].status == Judging then [last] else []
  }

  lemma {:induction false} JudgingInMembers(db: map<SubId, Row>, ids: seq<SubId>)
    ensures Members(JudgingIn(db, ids)) == StillJudging(db, Members(ids))
  {
    if ids != [] {
      var init, last := ids[..|ids| - 1], ids[|ids| - 1];
      JudgingInMembers(db, init);
      MembersAppend(JudgingIn(db, init), last);
      assert JudgingIn(db, init) + [] == JudgingIn(db, init);
    }
  }

  lemma ResetAppend(db: map<SubId, Row>, done: seq<SubId>, id: SubId)
    requires id in db && id !in Members(done)
    ensures id in Reset(db, Members(done)) && Reset(db, Members(done))[id] == db[id]
    ensures Reset(db, Members(done))[id := FRESH_ROW] == Reset(db, Members(done + [id]))
  {
  }

  // One orphan more: either its row goes back and it joins the list, or neither happens.
  lemma OrphanStepEffect(db: map<SubId, Row>, visited: seq<SubId>, id: SubId)
    requires NoRepeats(visited) && id !in Members(visited)
    ensures
      var done := JudgingIn(db, visited);
      && NoRepeats(visited + [id]) && Members(visited + [id]) == Members(visited) + {id}
      && (id in Reset(db, Members(done)) <==> id in db)
      && (id in db ==> Reset(db, Members(done))[id] == db[id])
      && (id in db ==> Reset(db, Members(done))[id := FRESH_ROW] == Reset(db, Members(done + [id])))
      && JudgingIn(db, visited + [id]) == if id in db && db[id].status == Judging then done + [id] else done
  {
    JudgingInMembers(db, visited);
    if id in db {
      ResetAppend(db, JudgingIn(db, visited), id);
    }
  }

  // The state with the ids back in the queue and their rows reset.
  function Back(s: State, ids: seq<SubId>, hands: multiset<Hand>): State {
    s.(db := Reset(s.db, Members(ids)), queue := s.queue + ids, hands := hands)
  }

  lemma BackNone(s: State)
    ensures Back(s, [], s.hands) == s
  {
  }

  lemma BackConcat(s: State, xs: seq<SubId>, between: multiset<Hand>, ys: seq<SubId>, hands: multiset<Hand>)
    ensures Back(Back(s, xs, between), ys, hands) == Back(s, xs + ys, hands)
  {
  }

  // A reclaimed row reaches the queue.
  lemma RequeueLeads(s: State, id: SubId)
    requires Reclaim(id) in s.hands && id in s.db
    ensures Leads(s, Back(s, [id], s.hands - multiset{Reclaim(id)}))
  {
    var s1 := s.(db := s.db[id := FRESH_ROW], hands := s.hands - multiset{Reclaim(id)} + multiset{Push(id)});
    LeadsRefl(s);
    LeadsStep(s, s, ReclaimStep(id));
    assert Next(s, ReclaimStep(id)) == s1;
    LeadsStep(s, s1, PushStep(id));
    assert s1.hands - multiset{Push(id)} == s.hands - multiset{Reclaim(id)};
    assert Reset(s.db, Members([id])) == s1.db;
  }

  lemma FirstReclaim(s: State, subs: seq<SubId>, others: multiset<Hand>)
    requires subs != [] && s.hands == others + Reclaims(subs) && Members(subs) <= s.db.Keys
    ensures Reclaim(subs[0]) in s.hands && subs[0] in s.db && Members(subs[1..]) <= s.db.Keys
    ensures s.hands - multiset{Reclaim(subs[0])} == others + Reclaims(subs[1..])
  {
    MembersCons(subs);
  }

  lemma {:induction false} ReclaimsLead(s: State, subs: seq<SubId>, others: multiset<Hand>)
    requires s.hands == others + Reclaims(subs) && Members(subs) <= s.db.Keys
    ensures Leads(s, Back(s, subs, others))
    decreases |subs|
  {
    if subs == [] {
      LeadsRefl(s);
      BackNone(s);
      assert others == s.hands;
    } else {
      var between := others + Reclaims(subs[1..]);
      var s1 := Back(s, [subs[0]], between);
      FirstReclaim(s, subs, others);
      RequeueLeads(s, subs[0]);
      ReclaimsLead(s1, subs[1..], others);
      BackConcat(s, [subs[0]], between, subs[1..], others);
      assert [subs[0]] + subs[1..] == subs;
      LeadsTrans(s, s1, Back(s, subs, others));
    }
  }

  /** One whole scan as a run of the protocol's steps. */
  lemma ScanLeads(s: State, subs: seq<SubId>)
    requires NoRepeats(subs) && Members(subs) <= ExpiredIds(s) && |subs| == ScanSize(ExpiredIds(s))
    ensures Leads(s, Back(s, subs, s.hands))
  {
    SeqSetSize(subs);
    ScanHands(subs);
    LeadsRefl(s);
    LeadsStep(s, s, Scan(Members(subs)));
    var s1 := s.(hands := s.hands + Reclaims(subs));
    ReclaimsLead(s1, subs, s.hands);
    LeadsTrans(s, s1, Back(s, subs, s.hands));
  }

  // One orphan, read and requeued if still JUDGING.
  lemma OrphanLeads(s: State, id: SubId)
    requires Orphan(id) in s.hands
    ensures
      var again := if id in s.db && s.db[id].status == Judging then [id] else [];
      Leads(s, Back(s, again, s.hands - multiset{Orphan(id)}))
  {
    var rest := s.hands - multiset{Orphan(id)};
    LeadsRefl(s);
    LeadsStep(s, s, OrphanStep(id));
    if id in s.db && s.db[id].status == Judging {
      var s1 := s.(hands := rest + multiset{Reclaim(id)});
      RequeueLeads(s1, id);
      assert s1.hands - multiset{Reclaim(id)} == rest;
      LeadsTrans(s, s1, Back(s, [id], rest));
    } else {
      BackNone(s.(hands := rest));
    }
  }

  lemma {:induction false} OrphansLead(s: State, visited: seq<SubId>, left: set<SubId>, others: multiset<Hand>)
    requires NoRepeats(visited) && Members(visited) !! left
    requires s.hands == others + OrphanHands(Members(visited) + left)
    ensures Leads(s, Back(s, JudgingIn(s.db, visited), others + OrphanHands(left)))
  {
    if visited == [] {
      LeadsRefl(s);
      assert Members(visited) + left == left;
      BackNone(s);
    } else {
      var init, id := visited[..|visited| - 1], visited[|visited| - 1];
      assert visited == init + [id];
      assert Members(visited) + left == Members(init) + (left + {id});
      OrphansLead(s, init, left + {id}, others);
      var sofar, between := JudgingIn(s.db, init), others + OrphanHands(left + {id});
      OrphanLast(s, init, id, left, others);
      LeadsTrans(s, Back(s, sofar, between), Back(s, JudgingIn(s.db, visited), others + OrphanHands(left)));
    }
  }

  lemma OrphanLast(s: State, init: seq<SubId>, id: SubId, left: set<SubId>, others: multiset<Hand>)
    requires NoRepeats(init) && id !in Members(init) && id !in left
    ensures Leads(Back(s, JudgingIn(s.db, init), others + OrphanHands(left + {id})),
                  Back(s, JudgingIn(s.db, init + [id]), others + OrphanHands(left)))
  {
    var sofar, between := JudgingIn(s.db, init), others + OrphanHands(left + {id});
    var s1 := Back(s, sofar, between);
    OrphanHandsRemove(id, left + {id});
    assert between - multiset{Orphan(id)} == others + OrphanHands(left);
    OrphanStepEffect(s.db, init, id);
    OrphanLeads(s1, id);
    var again := if id in s.db && s.db[id].status == Judging then [id] else [];
    BackConcat(s, sofar, between, again, others + OrphanHands(left));
  }

  /** One whole disconnect as a run of the protocol's steps. */
  lemma DropLeads(s: State, c: ConnId, visited: seq<SubId>)
    requires Enabled(s, Drop(c))
    requires NoRepeats(visited) && Members(visited) == OwnedBy(s, s.conns[c].name)
    ensures Members(JudgingIn(s.db, visited)) == StillJudging(s.db, Members(visited))
    ensures Leads(s, Back(Next(s, Drop(c)), JudgingIn(s.db, visited), s.hands))
  {
    var s1 := Next(s, Drop(c));
    JudgingInMembers(s.db, visited);
    LeadsRefl(s);
    LeadsStep(s, s, Drop(c));
    assert Members(visited) + {} == Members(visited);
    OrphansLead(s1, visited, {}, s.hands);
    assert OrphanHands({}) == multiset{} && s.hands + multiset{} == s.hands;
    LeadsTrans(s, s1, Back(s1, JudgingIn(s.db, visited), s.hands));
  }

  lemma PrefixGrows(queue: seq<SubId>, ids: seq<SubId>, i: nat)
    requires i < |ids|
    ensures queue + ids[..i + 1] == (queue + ids[..i]) + [ids[i]]
  {
  }

  function Members(s: seq<SubId>): set<SubId> { set id | id in s }

  lemma MembersAppend(s: seq<SubId>, id: SubId)
    ensures Members(s + [id]) == Members(s) + {id}
  {
  }

  lemma {:induction false} SeqSetSize(s: seq<SubId>)
    requires NoRepeats(s)
    ensures |Members(s)| == |s|
  {
    if s == [] {
    } else {
      SeqSetSize(s[1..]);
      MembersCons(s);
    }
  }

  function Reclaims(ids: seq<SubId>): multiset<Hand> {
    if ids == [] then multiset{} else multiset{Reclaim(ids[0])} + Reclaims(ids[1..])
  }

  // One hand per selected row.
  lemma {:induction false} ScanHands(ids: seq<SubId>)
    requires NoRepeats(ids)
    ensures ReclaimHands(Members(ids)) == Reclaims(ids)
  {
    if ids == [] {
    } else {
      ScanHands(ids[1..]);
    }
  }

  lemma MembersCons(ids: seq<SubId>)
    requires ids != []
    ensures Members(ids) == {ids[0]} + Members(ids[1..])
    ensures NoRepeats(ids) ==> ids[0] !in Members(ids[1..])
  {
  }

  // After a scan the over-age rows are those it did not reclaim.
  lemma ExpiredAfterScan(db0: map<SubId, Row>, db: map<SubId, Row>, now: int, reclaimed: seq<SubId>)
    requires Members(reclaimed) <= ExpiredRows(db0, now) && db == Reset(db0, Members(reclaimed))
    requires NoRepeats(reclaimed)
    ensures ExpiredRows(db, now) == ExpiredRows(db0, now) - Members(reclaimed)
    ensures |ExpiredRows(db, now)| == |ExpiredRows(db0, now)| - |reclaimed|
  {
    SeqSetSize(reclaimed);
  }

  lemma ProperSubsetSize(a: set<SubId>, b: set<SubId>)
    requires a <= b
    ensures |a| <= |b| && (|a| == |b| ==> a == b)
  {
    assert b == a + (b - a);
  }

  // Rows over-age once and not reclaimed since are over-age still.
  lemma StillExpired(db0: map<SubId, Row>, now0: int, sofar: seq<SubId>, now: int)
    requires now >= now0
    ensures ExpiredRows(db0, now0) - Members(sofar) <= ExpiredRows(Reset(db0, Members(sofar)), now)
    ensures Members(sofar) !! ExpiredRows(Reset(db0, Members(sofar)), now)
    ensures ExpiredRows(Reset(db0, Members(sofar)), now) <= StillJudging(db0, db0.Keys)
  {
  }

  lemma ResetAll(db0: map<SubId, Row>, sofar: seq<SubId>, subs: seq<SubId>)
    ensures Members(sofar + subs) == Members(sofar) + Members(subs)
    ensures Reset(Reset(db0, Members(sofar)), Members(subs)) == Reset(db0, Members(sofar + subs))
    ensures NoRepeats(sofar) && NoRepeats(subs) && Members(sofar) !! Members(subs) ==> NoRepeats(sofar + subs)
  {
    assert Members(sofar + subs) == Members(sofar) + Members(subs);
    if Members(sofar) !! Members(subs) {
      forall i, j | 0 <= i < |sofar| && 0 <= j < |subs|
        ensures sofar[i] != subs[j]
      {
        assert sofar[i] in Members(sofar) && subs[j] in Members(subs);
      }
    }
  }

  // One tick later: either everything over-age at the start is reclaimed, or the tick took its limit.
  lemma TickTakes(db0: map<SubId, Row>, now0: int, sofar: seq<SubId>, db: map<SubId, Row>, now: int, subs: seq<SubId>)
    requires db == Reset(db0, Members(sofar)) && now >= now0
    requires NoRepeats(sofar) && Members(sofar) <= StillJudging(db0, db0.Keys)
    requires NoRepeats(subs) && Members(subs) <= ExpiredRows(db, now) && |subs| == ScanSize(ExpiredRows(db, now))
    ensures NoRepeats(sofar + subs) && Members(sofar + subs) <= StillJudging(db0, db0.Keys)
    ensures Reset(db, Members(subs)) == Reset(db0, Members(sofar + subs))
    ensures ExpiredRows(db0, now0) <= Members(sofar + subs) || |subs| == SCAN_LIMIT
  {
    StillExpired(db0, now0, sofar, now);
    ResetAll(db0, sofar, subs);
    SeqSetSize(subs);
    ProperSubsetSize(Members(subs), ExpiredRows(db, now));
  }

  lemma OrphanHandsRemove(id: SubId, ids: set<SubId>)
    requires id in ids
    ensures OrphanHands(ids) == multiset{Orphan(id)} + OrphanHands(ids - {id})
  {
  }

  predicate Ascending(rows: seq<SubId>) { forall i, j | 0 <= i < j < |rows| :: rows[i] < rows[j] }

  // ORDER BY id.
  method SortedIds(ids: set<SubId>) returns (rows: seq<SubId>)
    ensures Members(rows) == ids && Ascending(rows)
  {
    rows := [];
    var rest := ids;
    while rest != {}
      invariant rest <= ids && Members(rows) == ids - rest
      invariant forall i, y | 0 <= i < |rows| && y in rest :: rows[i] < y
      invariant Ascending(rows)
      decreases rest
    {
      var least := Least(rest);
      assert Members(rows + [least]) == Members(rows) + {least};
      rows := rows + [least];
      rest := rest - {least};
    }
  }

  method Least(ids: set<SubId>) returns (least: SubId)
    requires ids != {}
    ensures least in ids && forall x | x in ids :: least <= x
  {
    least :| least in ids;
    var rest := ids - {least};
    while rest != {}
      invariant rest <= ids && least in ids && forall x | x in ids && x !in rest :: least <= x
      decreases rest
    {
      var x :| x in rest;
      rest := rest - {x};
      if x < least {
        least := x;
      }
    }
  }
}
