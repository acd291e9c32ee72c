/** The lease scanner over whole runs (backend/internal/judgehub/hub.go): which dispatches a scan
    selects, and which ones its later write hits. */
module DispatchLeases {
  import opened Dispatch
  import opened DispatchRuns
  import opened Options

  // ---------------------------------------------------------------- the scanner

  // A row's lease, if it has one, is not older than a given instant plus the lease duration.
  predicate LeaseFloor(s: State, id: SubId, since: int) {
    && id in s.db && since <= s.now
    && (s.db[id].lease.Some? ==> since + LEASE <= s.db[id].lease.value)
  }

  lemma {:induction false} RunKeepsFloor(s: State, actions: seq<Action>, t: State, id: SubId, since: int)
    requires Runs(s, actions, t) && LeaseFloor(s, id, since)
    ensures LeaseFloor(t, id, since)
    decreases |actions|
  {
    if actions != [] {
      StepKeepsFloor(s, actions[0], id, since);
      RunKeepsFloor(Next(s, actions[0]), actions[1..], t, id, since);
    }
  }

  lemma StepKeepsFloor(s: State, a: Action, id: SubId, since: int)
    requires Enabled(s, a) && LeaseFloor(s, id, since)
    ensures LeaseFloor(Next(s, a), id, since)
  {
    if IsApi(a) {
      ApiKeepsFloor(s, a, id, since);
    } else if !a.At? {
      ConnKeepsFloor(s, a, id, since);
    }
  }

  lemma ApiKeepsFloor(s: State, a: Action, id: SubId, since: int)
    requires Enabled(s, a) && IsApi(a) && LeaseFloor(s, id, since)
    ensures LeaseFloor(ApiNext(s, a), id, since)
  {
  }

  lemma ConnKeepsFloor(s: State, a: Action, id: SubId, since: int)
    requires Enabled(s, a) && !IsApi(a) && !a.At? && LeaseFloor(s, id, since)
    ensures LeaseFloor(ConnNext(s, a), id, since)
  {
  }

  /** The scanner never selects a young dispatch: from the moment a submission is marked JUDGING and
      whatever happens next, no scan picks it until more than twice the lease duration has passed. */
  lemma ScanSparesYoungDispatches(s: State, c: ConnId, actions: seq<Action>, t: State, ids: set<SubId>)
    requires Enabled(s, Mark(c)) && Runs(Next(s, Mark(c)), actions, t) && Enabled(t, Scan(ids))
    requires t.now - s.now <= 2 * LEASE
    ensures s.conns[c].dispatcher.id !in ids
  {
    var id := s.conns[c].dispatcher.id;
    RunKeepsFloor(Next(s, Mark(c)), actions, t, id, s.now);
  }

  // ---------------------------------------------------------------- from the selection to the write

  // The last write to one row since some instant: none, a mark, or one that leaves the row not JUDGING.
  datatype LastWrite = Untouched | Dispatched(at: int) | Cleared

  predicate Marks(s: State, a: Action, id: SubId)
    requires Enabled(s, a)
  {
    a.Mark? && s.conns[a.c].dispatcher.id == id
  }

  predicate Clears(s: State, a: Action, id: SubId)
    requires Enabled(s, a)
  {
    || a == Create(id) || a == Rejudge(id) || a == ReclaimStep(id)
    || (a.BuildFails? && s.conns[a.c].dispatcher.id == id)
    || (a.Finalize? && s.conns[a.c].reader.id == id)
  }

  function WriteStep(s: State, a: Action, id: SubId, before: LastWrite): LastWrite
    requires Enabled(s, a)
  {
    if Marks(s, a, id) then Dispatched(s.now) else if Clears(s, a, id) then Cleared else before
  }

  function LastWriteOf(s: State, actions: seq<Action>, id: SubId, before: LastWrite): LastWrite
    decreases |actions|
  {
    if actions == [] || !Enabled(s, actions[0]) then before
    else LastWriteOf(Next(s, actions[0]), actions[1..], id, WriteStep(s, actions[0], id, before))
  }

  // What a row that a scan selected looks like after that write.
  predicate Reads(s: State, id: SubId, w: LastWrite) {
    id in s.db &&
    match w
    case Untouched => RowExpired(s.db[id], s.now)
    case Dispatched(at) => s.db[id] == Row(Judging, Some(at + LEASE))
    case Cleared => s.db[id].status != Judging
  }

  predicate WritesRow(a: Action) { a.Create? || a.Rejudge? || a.ReclaimStep? }

  lemma QuietApiKeepsRows(s: State, a: Action)
    requires Enabled(s, a) && IsApi(a) && !WritesRow(a)
    ensures ApiNext(s, a).db == s.db && ApiNext(s, a).now >= s.now
  {
    match a
    case Tick(_) =>
    case OrphanStep(_) =>
    case PushStep(_) =>
    case Scan(_) =>
    case Restart(_) =>
    case LoadPending(_) =>
    case RestoreOne =>
  }

  lemma FreshWriteReads(s: State, a: Action, id: SubId, w: LastWrite)
    requires Enabled(s, a) && WritesRow(a) && Reads(s, id, w)
    ensures Reads(ApiNext(s, a), id, WriteStep(s, a, id, w))
  {
  }

  lemma ApiReads(s: State, a: Action, id: SubId, w: LastWrite)
    requires Enabled(s, a) && IsApi(a) && Reads(s, id, w)
    ensures Reads(ApiNext(s, a), id, WriteStep(s, a, id, w))
  {
    if WritesRow(a) {
      FreshWriteReads(s, a, id, w);
    } else {
      QuietApiKeepsRows(s, a);
    }
  }

  lemma ConnReads(s: State, a: Action, id: SubId, w: LastWrite)
    requires Enabled(s, a) && !IsApi(a) && !a.At? && Reads(s, id, w)
    ensures Reads(ConnNext(s, a), id, WriteStep(s, a, id, w))
  {
  }

  lemma {:induction false} RunReads(s: State, actions: seq<Action>, t: State, id: SubId, w: LastWrite)
    requires Runs(s, actions, t) && Reads(s, id, w)
    ensures Reads(t, id, LastWriteOf(s, actions, id, w))
    decreases |actions|
  {
    if actions != [] {
      var a := actions[0];
      if IsApi(a) {
        ApiReads(s, a, id, w);
      } else if !a.At? {
        ConnReads(s, a, id, w);
      }
      RunReads(Next(s, a), actions[1..], t, id, WriteStep(s, a, id, w));
    }
  }

  // A dispatch at most twice the lease duration old.
  predicate Young(row: Row, now: int) { row.status == Judging && !RowExpired(row, now) }

  /** When the scanner's write hits a young dispatch: whatever happens between a scan's selection of a
      submission and the write, the row is a dispatch at most twice the lease duration old exactly when
      the last write to it since the selection was a mark not longer ago than that.  The write resets
      the row in any case. */
  lemma ReclaimHitsYoungIff(s: State, ids: set<SubId>, id: SubId, actions: seq<Action>, t: State)
    requires Enabled(s, Scan(ids)) && id in ids && Runs(Next(s, Scan(ids)), actions, t)
    requires Enabled(t, ReclaimStep(id))
    ensures
      var w := LastWriteOf(Next(s, Scan(ids)), actions, id, Untouched);
      && id in t.db && Next(t, ReclaimStep(id)).db == t.db[id := FRESH_ROW]
      && (Young(t.db[id], t.now) <==> w.Dispatched? && t.now - w.at <= 2 * LEASE)
  {
    RunReads(Next(s, Scan(ids)), actions, t, id, Untouched);
  }

  // No step of the run marks the submission.
  predicate NeverMarked(s: State, actions: seq<Action>, id: SubId)
    decreases |actions|
  {
    actions == [] || !Enabled(s, actions[0]) ||
    (!Marks(s, actions[0], id) && NeverMarked(Next(s, actions[0]), actions[1..], id))
  }

  lemma {:induction false} UnmarkedIsNotDispatched(s: State, actions: seq<Action>, id: SubId, before: LastWrite)
    requires NeverMarked(s, actions, id) && !before.Dispatched?
    ensures !LastWriteOf(s, actions, id, before).Dispatched?
    decreases |actions|
  {
    if actions != [] && Enabled(s, actions[0]) {
      UnmarkedIsNotDispatched(Next(s, actions[0]), actions[1..], id, WriteStep(s, actions[0], id, before));
    }
  }

  /** So the protection reaches from the selection to the write: unless the submission is dispatched anew
      in between, the row the write finds is not a dispatch, or it is over-age. */
  lemma WriteSparesYoungDispatches(s: State, ids: set<SubId>, id: SubId, actions: seq<Action>, t: State)
    requires Enabled(s, Scan(ids)) && id in ids && Runs(Next(s, Scan(ids)), actions, t)
    requires NeverMarked(Next(s, Scan(ids)), actions, id)
    ensures id in t.db && (t.db[id].status == Judging ==> RowExpired(t.db[id], t.now))
  {
    RunReads(Next(s, Scan(ids)), actions, t, id, Untouched);
    UnmarkedIsNotDispatched(Next(s, Scan(ids)), actions, id, Untouched);
  }

  // ---------------------------------------------------------------- an example

  // Submission 7 is queued and a daemon has connected.
  lemma QueuedAndConnected(s3: State)
    requires s3 == INIT.(db := map[7 := FRESH_ROW], queue := [7], conns := map[0 := NewConn("a", 1)],
                         names := map["a" := 0])
    ensures Leads(INIT, s3)
  {
    LeadsRefl(INIT);
    LeadsStep(INIT, INIT, Create(7));
    var s1 := INIT.(db := map[7 := FRESH_ROW], hands := multiset{Push(7)});
    assert Next(INIT, Create(7)) == s1;
    LeadsStep(INIT, s1, PushStep(7));
    var s2 := s1.(hands := multiset{}, queue := [7]);
    assert Next(s1, PushStep(7)) == s2;
    LeadsStep(INIT, s2, Connect(0, "a", 1));
  }

  // It has been dispatched to connection 0, aged, selected by a scan and then rejudged.
  lemma SelectedThenRejudged(s: State)
    requires s == INIT.(now := 2 * LEASE + 1, db := map[7 := FRESH_ROW], queue := [7],
                        conns := map[0 := NewConn("a", 1).(dispatcher := Marked(7))], names := map["a" := 0],
                        hands := multiset{Reclaim(7)})
    ensures Leads(INIT, s)
  {
    var s3 := INIT.(db := map[7 := FRESH_ROW], queue := [7], conns := map[0 := NewConn("a", 1)],
                    names := map["a" := 0]);
    QueuedAndConnected(s3);
    MarkHead(s3, 0, "a");
    var s4 := s3.(queue := [], db := map[7 := Row(Judging, Some(LEASE))],
                  conns := map[0 := NewConn("a", 1).(dispatcher := Marked(7))]);
    assert s4 == With(s3.(queue := s3.queue[1..], db := s3.db[7 := Row(Judging, Some(LEASE))]), 0,
                      NewConn("a", 1).(dispatcher := Marked(7)));
    LeadsTrans(INIT, s3, s4);
    LeadsStep(INIT, s4, Tick(2 * LEASE + 1));
    var s5 := s4.(now := 2 * LEASE + 1);
    AgedThenRejudged(s5, s);
    LeadsTrans(INIT, s5, s);
  }

  lemma AgedThenRejudged(s5: State, s: State)
    requires s5 == INIT.(now := 2 * LEASE + 1, db := map[7 := Row(Judging, Some(LEASE))],
                         conns := map[0 := NewConn("a", 1).(dispatcher := Marked(7))], names := map["a" := 0])
    requires s == s5.(db := map[7 := FRESH_ROW], queue := [7], hands := multiset{Reclaim(7)})
    ensures Leads(s5, s)
  {
    var s6 := s5.(hands := multiset{Reclaim(7)});
    SelectAged(s5, s6);
    RejudgedAndPushed(s6, s);
    LeadsTrans(s5, s6, s);
  }

  lemma RejudgedAndPushed(s6: State, s: State)
    requires 7 in s6.db && s6.phase == Serving && s6.queue == [] && Push(7) !in s6.hands
    requires s == s6.(db := s6.db[7 := FRESH_ROW], queue := [7])
    ensures Leads(s6, s)
  {
    LeadsRefl(s6);
    LeadsStep(s6, s6, Rejudge(7));
    var s7 := s6.(db := s6.db[7 := FRESH_ROW], hands := s6.hands + multiset{Push(7)});
    LeadsStep(s6, s7, PushStep(7));
    assert s7.hands - multiset{Push(7)} == s6.hands && [] + [7] == [7];
    assert Next(s7, PushStep(7)) == s;
  }

  lemma SelectAged(s5: State, s6: State)
    requires s5.now == 2 * LEASE + 1 && s5.db == map[7 := Row(Judging, Some(LEASE))] && s5.hands == multiset{}
    requires s6 == s5.(hands := multiset{Reclaim(7)})
    ensures Leads(s5, s6)
  {
    LeadsRefl(s5);
    assert ExpiredIds(s5) == {7};
    LeadsStep(s5, s5, Scan({7}));
    assert ReclaimHands({7}) == multiset{Reclaim(7)};
    assert Next(s5, Scan({7})) == s6;
  }

  // A second daemon connects and gets the submission.
  lemma DispatchedAnew(s: State) returns (s2: State)
    requires s.phase == Serving && 7 in s.db && s.queue == [7] && 1 !in s.conns
    ensures Leads(s, s2) && s2.now == s.now && s2.hands == s.hands
    ensures s2.db == s.db[7 := Row(Judging, Some(s.now + LEASE))]
  {
    LeadsRefl(s);
    LeadsStep(s, s, Connect(1, "b", 1));
    var s1 := Next(s, Connect(1, "b", 1));
    MarkHead(s1, 1, "b");
    s2 := With(s1.(queue := s1.queue[1..], db := s1.db[7 := Row(Judging, Some(s1.now + LEASE))]), 1,
               NewConn("b", 1).(dispatcher := Marked(7)));
    LeadsTrans(s, s1, s2);
  }

  /** That protection ends with the selection: the write that follows does not look at the row again.
      In some reachable state a row selected earlier has been rejudged and dispatched anew, its fresh
      lease has its full length to run, and the scanner's late write still resets it. */
  lemma LateReclaimHitsFreshLease()
    ensures exists s :: Leads(INIT, s) && Enabled(s, ReclaimStep(7)) && 7 in s.db &&
                        s.db[7] == Row(Judging, Some(s.now + LEASE)) && Next(s, ReclaimStep(7)).db[7] == FRESH_ROW
  {
    var s := INIT.(now := 2 * LEASE + 1, db := map[7 := FRESH_ROW], queue := [7],
                   conns := map[0 := NewConn("a", 1).(dispatcher := Marked(7))], names := map["a" := 0],
                   hands := multiset{Reclaim(7)});
    SelectedThenRejudged(s);
    var s2 := DispatchedAnew(s);
    LeadsTrans(INIT, s, s2);
  }
}
