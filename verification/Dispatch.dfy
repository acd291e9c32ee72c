/** The judge dispatch protocol (backend/internal/judgehub, queue, daemon) as a state machine over its
    atomic steps: database row writes, queue pushes and pops, updates of the in-flight table and the
    per-connection counter, and messages in transit.  Goroutines interleave freely, so a popped id
    that is not marked yet, or a row reset to PENDING that is not pushed yet, is a state of its own.
    Database writes and queue pushes are assumed to succeed. */
module Dispatch {
  import opened Options

  type SubId = nat
  type ConnId = nat

  const LEASE := 900          // leaseDuration, in seconds
  const SCAN_LIMIT := 100     // rows reclaimed per scan
  const SEND_BUFFER := 64

  datatype Verdict = AC | WA | TLE | MLE | RE | CE | SE
  datatype Status = Pending | Judging | Final(verdict: Verdict)
  datatype Row = Row(status: Status, lease: Option<int>)

  // Where a connection's dispatch loop is.
  datatype Dispatcher =
    | Idle
    | Ready                    // saw spare capacity, waiting in Pop
    | Holding(id: SubId)       // popped, not marked yet
    | Returning(id: SubId)     // build failed: row is PENDING again, not pushed yet
    | Marked(id: SubId)        // row is JUDGING under lease
    | Counted(id: SubId)       // active counter raised
    | Sending(id: SubId)       // in the in-flight table, waiting for the send buffer
    | Exited                   // loop returned

  // Where a connection's read loop is.
  datatype Reader =
    | Reading
    | GotResult(id: SubId, verdict: Verdict)    // active counter lowered
    | Untracked(id: SubId, verdict: Verdict)    // removed from the in-flight table

  datatype Conn = Conn(
    name: string, capacity: nat, active: int,
    closed: bool,               // the done channel
    alive: bool,                // the stream
    dropped: bool,              // dropConn ran
    dispatcher: Dispatcher, reader: Reader,
    buffer: seq<SubId>,         // conn.send
    toDaemon: seq<SubId>,       // on the wire
    waiting: Option<SubId>,     // received by the daemon, waiting for a worker slot
    running: seq<SubId>,        // being judged
    releasing: nat,             // result sent, slot not given back yet
    toApi: seq<(SubId, Verdict)>)

  // A pending obligation of some goroutine other than the two loops of a connection.
  datatype Hand =
    | Push(id: SubId)           // row reset to PENDING, not pushed yet
    | Reclaim(id: SubId)        // decided to requeue, row not written yet
    | Orphan(id: SubId)         // taken out of the in-flight table, row not read yet

  datatype Phase = Booting | Restoring(left: seq<SubId>) | Serving

  datatype State = State(
    now: int, phase: Phase,
    db: map<SubId, Row>, queue: seq<SubId>,
    conns: map<ConnId, Conn>, names: map<string, ConnId>,
    inflight: map<SubId, string>, hands: multiset<Hand>)

  const INIT := State(0, Serving, map[], [], map[], map[], map[], multiset{})

  datatype Action =
    // API handlers, scanner, restart
    | Tick(dt: nat) | Create(id: SubId) | Rejudge(id: SubId)
    | PushStep(id: SubId) | ReclaimStep(id: SubId) | OrphanStep(id: SubId)
    | Scan(ids: set<SubId>)
    | Restart(keepQueue: bool) | LoadPending(rows: seq<SubId>) | RestoreOne
    // connection life
    | Connect(c: ConnId, name: string, capacity: nat) | Drop(c: ConnId)
    // dispatch loop and read loop, where they touch shared state
    | Pop(c: ConnId) | BuildFails(c: ConnId) | Return(c: ConnId) | Mark(c: ConnId) | Track(c: ConnId)
    | Untrack(c: ConnId) | Finalize(c: ConnId)
    // steps inside one connection
    | At(c: ConnId, step: LocalAction)

  datatype LocalAction =
    // dispatch loop and send loop
    | Check | Count | Send | Leave | Deliver
    // the stream breaks
    | Break
    // daemon
    | DaemonReceive | DaemonStart | DaemonFinish(k: nat, verdict: Verdict) | DaemonRelease
    // read loop
    | Receive

  predicate RowExpired(r: Row, now: int) {
    r.status == Judging && r.lease.Some? && r.lease.value < now - LEASE
  }

  function ExpiredRows(db: map<SubId, Row>, now: int): set<SubId> { set id | id in db && RowExpired(db[id], now) }

  function ExpiredIds(s: State): set<SubId> { ExpiredRows(s.db, s.now) }

  // What one scan's LIMIT allows.
  function ScanSize(expired: set<SubId>): nat { if |expired| < SCAN_LIMIT then |expired| else SCAN_LIMIT }

  function PendingIds(s: State): set<SubId> { set id | id in s.db && s.db[id].status == Pending }

  predicate Stopping(k: Conn) { k.closed || !k.alive }

  // The loop looks at both stop signals when idle or sending, but Pop only watches the stream.
  predicate MayLeave(k: Conn) {
    || ((k.dispatcher.Idle? || k.dispatcher.Sending?) && Stopping(k))
    || (k.dispatcher.Ready? && !k.alive)
  }

  predicate Enabled(s: State, a: Action) {
    match a
    case Tick(_) => true
    case Create(id) => s.phase == Serving && id !in s.db
    case Rejudge(id) => s.phase == Serving && id in s.db
    case PushStep(id) => Push(id) in s.hands
    case ReclaimStep(id) => Reclaim(id) in s.hands
    case OrphanStep(id) => Orphan(id) in s.hands
    case Scan(ids) =>
      ids <= ExpiredIds(s) && |ids| == ScanSize(ExpiredIds(s))
    case Restart(_) => true
    case LoadPending(ids) => s.phase == Booting && (set id | id in ids) == PendingIds(s)
    case RestoreOne => s.phase.Restoring?
    case Connect(c, _, _) => s.phase == Serving && c !in s.conns
    case Drop(c) => c in s.conns && !s.conns[c].alive && !s.conns[c].dropped && s.conns[c].reader == Reading
    case Pop(c) => c in s.conns && s.conns[c].dispatcher == Ready && s.queue != []
    case BuildFails(c) => c in s.conns && s.conns[c].dispatcher.Holding?
    case Return(c) => c in s.conns && s.conns[c].dispatcher.Returning?
    case Mark(c) => c in s.conns && s.conns[c].dispatcher.Holding? && s.conns[c].dispatcher.id in s.db
    case Track(c) => c in s.conns && s.conns[c].dispatcher.Counted?
    case Untrack(c) => c in s.conns && s.conns[c].reader.GotResult?
    case Finalize(c) => c in s.conns && s.conns[c].reader.Untracked?
    case At(c, step) => c in s.conns && LocalEnabled(s.conns[c], step)
  }

  predicate LocalEnabled(k: Conn, a: LocalAction) {
    match a
    case Check => k.dispatcher == Idle && k.active < k.capacity
    case Count => k.dispatcher.Marked?
    case Send => k.dispatcher.Sending? && |k.buffer| < SEND_BUFFER
    case Leave => MayLeave(k)
    case Deliver => k.alive && k.buffer != []
    case Break => k.alive
    case DaemonReceive => k.alive && k.toDaemon != [] && k.waiting == None
    case DaemonStart => k.waiting.Some? && |k.running| + k.releasing < k.capacity
    case DaemonFinish(j, _) => j < |k.running|
    case DaemonRelease => k.releasing > 0
    case Receive => k.alive && k.toApi != [] && k.reader == Reading
  }

  function LocalNext(k: Conn, a: LocalAction): Conn
    requires LocalEnabled(k, a)
  {
    match a
    case Check => k.(dispatcher := Ready)
    case Count => k.(dispatcher := Counted(k.dispatcher.id), active := k.active + 1)
    case Send => k.(dispatcher := Idle, buffer := k.buffer + [k.dispatcher.id])
    case Leave => k.(dispatcher := Exited)
    case Deliver => k.(buffer := k.buffer[1..], toDaemon := k.toDaemon + [k.buffer[0]])
    case Break => k.(alive := false, toDaemon := [], toApi := [])
    case DaemonReceive => k.(toDaemon := k.toDaemon[1..], waiting := Some(k.toDaemon[0]))
    case DaemonStart => k.(waiting := None, running := k.running + [k.waiting.value])
    case DaemonFinish(j, verdict) =>
      k.(running := k.running[..j] + k.running[j + 1..], releasing := k.releasing + 1,
         toApi := if k.alive then k.toApi + [(k.running[j], verdict)] else k.toApi)
    case DaemonRelease => k.(releasing := k.releasing - 1)
    case Receive =>
      k.(active := k.active - 1, toApi := k.toApi[1..], reader := GotResult(k.toApi[0].0, k.toApi[0].1))
  }

  function SetConn(s: State, c: ConnId, k: Conn): State { s.(conns := s.conns[c := k]) }

  // An UPDATE ... WHERE id = ?, which changes nothing when there is no such row.
  function Write(db: map<SubId, Row>, id: SubId, row: Row): map<SubId, Row> { if id in db then db[id := row] else db }

  function SetRow(s: State, id: SubId, row: Row): State { s.(db := Write(s.db, id, row)) }

  function RemoveHand(s: State, h: Hand): State { s.(hands := s.hands - multiset{h}) }

  function AddHand(s: State, h: Hand): State { s.(hands := s.hands + multiset{h}) }

  function NewConn(name: string, capacity: nat): Conn {
    Conn(name, capacity, 0, false, true, false, Idle, Reading, [], [], None, [], 0, [])
  }

  // A duplicate login closes the stale connection of that name.
  function CloseStale(conns: map<ConnId, Conn>, names: map<string, ConnId>, name: string): map<ConnId, Conn> {
    if name in names && names[name] in conns
    then conns[names[name] := conns[names[name]].(closed := true)] else conns
  }

  const FRESH_ROW := Row(Pending, None)

  function ReclaimHands(ids: set<SubId>): multiset<Hand> { multiset(set id | id in ids :: Reclaim(id)) }

  function OrphanHands(ids: set<SubId>): multiset<Hand> { multiset(set id | id in ids :: Orphan(id)) }

  function OwnedBy(s: State, name: string): set<SubId> { set id | id in s.inflight && s.inflight[id] == name }

  predicate IsApi(a: Action) {
    a.Tick? || a.Create? || a.Rejudge? || a.PushStep? || a.ReclaimStep? || a.OrphanStep? || a.Scan? ||
    a.Restart? || a.LoadPending? || a.RestoreOne?
  }

  // Handlers, scanner and restart.
  function ApiNext(s: State, a: Action): State
    requires Enabled(s, a) && IsApi(a)
  {
    match a
    case Tick(dt) => s.(now := s.now + dt)
    case Create(id) => AddHand(s.(db := s.db[id := FRESH_ROW]), Push(id))
    case Rejudge(id) => AddHand(SetRow(s, id, FRESH_ROW), Push(id))
    case PushStep(id) => RemoveHand(s.(queue := s.queue + [id]), Push(id))
    case ReclaimStep(id) => AddHand(RemoveHand(SetRow(s, id, FRESH_ROW), Reclaim(id)), Push(id))
    case OrphanStep(id) =>
      var s1 := RemoveHand(s, Orphan(id));
      if id in s.db && s.db[id].status == Judging then AddHand(s1, Reclaim(id)) else s1
    case Scan(ids) => s.(hands := s.hands + ReclaimHands(ids))
    case Restart(keepQueue) =>
      State(s.now, Booting, s.db, if keepQueue then s.queue else [], map[], map[], map[], multiset{})
    case LoadPending(ids) => s.(phase := Restoring(ids))
    case RestoreOne =>
      if s.phase.left == [] then s.(phase := Serving)
      else s.(queue := s.queue + [s.phase.left[0]], phase := Restoring(s.phase.left[1..]))
  }

  // The steps of a connection that touch shared state.
  function ConnNext(s: State, a: Action): State
    requires Enabled(s, a) && !IsApi(a) && !a.At?
  {
    match a
    case Connect(c, name, capacity) =>
      s.(conns := CloseStale(s.conns, s.names, name)[c := NewConn(name, capacity)], names := s.names[name := c])
    case Drop(c) =>
      var k := s.conns[c];
      SetConn(s, c, k.(closed := true, dropped := true))
      .(names := if k.name in s.names && s.names[k.name] == c then s.names - {k.name} else s.names,
        inflight := s.inflight - OwnedBy(s, k.name),
        hands := s.hands + OrphanHands(OwnedBy(s, k.name)))
    case Pop(c) => SetConn(s, c, s.conns[c].(dispatcher := Holding(s.queue[0]))).(queue := s.queue[1..])
    case BuildFails(c) =>
      var id := s.conns[c].dispatcher.id;
      SetRow(SetConn(s, c, s.conns[c].(dispatcher := Returning(id))), id, FRESH_ROW)
    case Return(c) =>
      SetConn(s, c, s.conns[c].(dispatcher := Idle)).(queue := s.queue + [s.conns[c].dispatcher.id])
    case Mark(c) =>
      var id := s.conns[c].dispatcher.id;
      SetRow(SetConn(s, c, s.conns[c].(dispatcher := Marked(id))), id, Row(Judging, Some(s.now + LEASE)))
    case Track(c) =>
      var k := s.conns[c];
      SetConn(s, c, k.(dispatcher := Sending(k.dispatcher.id))).(inflight := s.inflight[k.dispatcher.id := k.name])
    case Untrack(c) =>
      var k := s.conns[c];
      SetConn(s, c, k.(reader := Untracked(k.reader.id, k.reader.verdict))).(inflight := s.inflight - {k.reader.id})
    case Finalize(c) =>
      var k := s.conns[c];
      SetRow(SetConn(s, c, k.(reader := Reading)), k.reader.id, Row(Final(k.reader.verdict), None))
  }

  // One atomic step.
  function Next(s: State, a: Action): State
    requires Enabled(s, a)
  {
    if a.At? then SetConn(s, a.c, LocalNext(s.conns[a.c], a.step))
    else if IsApi(a) then ApiNext(s, a)
    else ConnNext(s, a)
  }

  // ---------------------------------------------------------------- invariants

  predicate Holds(k: Conn, id: SubId) { k.dispatcher == Holding(id) || k.dispatcher == Returning(id) }

  ghost predicate Held(conns: map<ConnId, Conn>, id: SubId) { exists c :: c in conns && Holds(conns[c], id) }

  function Unrestored(phase: Phase): seq<SubId> { if phase.Restoring? then phase.left else [] }

  // The id is queued, or some step still owes it to the queue or is about to mark it.
  ghost predicate Covered(s: State, id: SubId) {
    id in s.queue || Push(id) in s.hands || id in Unrestored(s.phase) || Held(s.conns, id)
  }

  predicate IsPending(db: map<SubId, Row>, id: SubId) { id in db && db[id].status == Pending }

  // No submission is lost: once booted, a PENDING row is queued or in the hand of a step about to
  // push or mark it.
  ghost predicate NoneLost(s: State) {
    s.phase == Booting || forall id | IsPending(s.db, id) :: Covered(s, id)
  }

  // Exactly the JUDGING rows carry a lease, and no lease reaches further than one duration ahead.
  predicate RowLeased(r: Row, now: int) {
    && (r.status == Judging <==> r.lease.Some?)
    && (r.lease.Some? ==> r.lease.value <= now + LEASE)
  }

  ghost predicate Leased(db: map<SubId, Row>, now: int) { forall id | id in db :: RowLeased(db[id], now) }

  // Tasks a connection has accepted and whose results it has not handled.
  function Outstanding(k: Conn): nat {
    (if k.dispatcher.Counted? || k.dispatcher.Sending? then 1 else 0)
    + |k.buffer| + |k.toDaemon| + (if k.waiting.Some? then 1 else 0) + |k.running| + |k.toApi|
  }

  // Tasks the dispatch loop has committed to but not counted yet.
  function Committed(k: Conn): nat {
    if k.dispatcher.Ready? || k.dispatcher.Holding? || k.dispatcher.Returning? || k.dispatcher.Marked? then 1 else 0
  }

  predicate Accounted(k: Conn) {
    && |k.running| + k.releasing <= k.capacity
    && (!Stopping(k) ==> k.active == Outstanding(k) && k.active + Committed(k) <= k.capacity)
  }

  ghost predicate AllAccounted(conns: map<ConnId, Conn>) { forall c | c in conns :: Accounted(conns[c]) }

  // The name table points at the one connection of that name that is not closed.
  ghost predicate NamesCurrent(conns: map<ConnId, Conn>, names: map<string, ConnId>) {
    && (forall c | c in conns && !conns[c].closed :: conns[c].name in names && names[conns[c].name] == c)
    && (forall name | name in names ::
          names[name] in conns && conns[names[name]].name == name && !conns[names[name]].closed)
  }

  // Every id any part of the system handles is a row.
  ghost predicate KnownIds(rows: set<SubId>, ids: seq<SubId>) { forall id | id in ids :: id in rows }

  ghost predicate KnownHands(rows: set<SubId>, hands: multiset<Hand>) { forall h | h in hands :: h.id in rows }

  predicate Carries(d: Dispatcher) { !d.Idle? && !d.Ready? && !d.Exited? }

  ghost predicate KnownConn(rows: set<SubId>, k: Conn) {
    && (Carries(k.dispatcher) ==> k.dispatcher.id in rows)
    && (!k.reader.Reading? ==> k.reader.id in rows)
    && KnownIds(rows, k.buffer) && KnownIds(rows, k.toDaemon) && KnownIds(rows, k.running)
    && (k.waiting.Some? ==> k.waiting.value in rows)
    && (forall r | r in k.toApi :: r.0 in rows)
  }

  ghost predicate KnownConns(rows: set<SubId>, conns: map<ConnId, Conn>) {
    forall c | c in conns :: KnownConn(rows, conns[c])
  }

  ghost predicate Known(s: State) {
    && KnownIds(s.db.Keys, s.queue) && KnownIds(s.db.Keys, Unrestored(s.phase)) && KnownHands(s.db.Keys, s.hands)
    && KnownConns(s.db.Keys, s.conns) && s.inflight.Keys <= s.db.Keys
  }

  ghost predicate Inv(s: State) {
    && NoneLost(s)
    && Leased(s.db, s.now)
    && AllAccounted(s.conns)
    && NamesCurrent(s.conns, s.names)
    && (s.phase != Serving ==> s.conns == map[])    // nothing volatile survives into the boot phases
    && Known(s)
  }
}
