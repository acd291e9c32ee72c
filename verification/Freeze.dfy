/** The scoreboard freeze (backend/internal/handler/contests.go, jury.go, registration.go): its options,
    the handlers that change them, and what they mean at an instant.  Instants are nanoseconds. */
module Freeze {
  import opened Options

  datatype Contest = Contest(
    start: int, end: int,
    freezeTime: Option<int>, freezeEnabled: bool, noManualFreeze: bool,
    manualFrozen: bool, manualFrozenAt: Option<int>)

  // The fields of a create or update request that matter here; None is a field left out.
  datatype Payload = Payload(
    start: int, end: int,
    freezeTime: Option<int>, freezeEnabled: Option<bool>, noManualFreeze: Option<bool>)

  // ---------------------------------------------------------------- what the options mean

  predicate ContestFrozen(c: Contest, now: int) {
    if !c.freezeEnabled || now > c.end then false
    else if c.manualFrozen then true
    else c.freezeTime.Some? && now > c.freezeTime.value
  }

  function FreezePoint(c: Contest, now: int): Option<int> {
    if !c.freezeEnabled || now > c.end then None
    else if c.manualFrozen && c.manualFrozenAt.Some? then c.manualFrozenAt
    else if c.freezeTime.Some? && now > c.freezeTime.value then c.freezeTime
    else None
  }

  // The manual lever and its timestamp go together.
  predicate Paired(c: Contest) { c.manualFrozen <==> c.manualFrozenAt.Some? }

  // A contest that forbids the lever is not manually frozen.
  predicate Exclusive(c: Contest) { c.noManualFreeze ==> !c.manualFrozen }

  /** The board is frozen exactly when there is an instant to mask from. */
  lemma FrozenIffPoint(c: Contest, now: int)
    requires Paired(c)
    ensures ContestFrozen(c, now) <==> FreezePoint(c, now).Some?
  {
  }

  /** The comment on freezePoint promises the automatic instant first; the code takes the manual one.
      So once the automatic freeze has set in, it is the masking instant if and only if the lever is
      off or was pulled at that very instant. */
  lemma AutomaticPointIff(c: Contest, now: int)
    requires Paired(c) && ContestFrozen(c, now) && c.freezeTime.Some? && now > c.freezeTime.value
    ensures FreezePoint(c, now) == c.freezeTime <==> (!c.manualFrozen || c.manualFrozenAt == c.freezeTime)
  {
  }

  // A verdict submitted at an instant is hidden from the board.
  predicate Hidden(c: Contest, now: int, created: int) {
    FreezePoint(c, now).Some? && created > FreezePoint(c, now).value
  }

  /** Pulling the lever moves the masking instant to the pull.  So it unmasks exactly what came in
      after the automatic instant and up to the pull, and hides exactly what came in after the pull
      and was not hidden yet. */
  lemma LateLeverUnmasks(c: Contest, lever: int, now: int, created: int)
    requires c.freezeEnabled && !c.noManualFreeze && !c.manualFrozen && lever <= now <= c.end
    ensures
      var pulled := AfterFreeze(c, c, true, lever);
      && FreezePoint(pulled, now) == Some(lever)
      && (Hidden(c, now, created) && !Hidden(pulled, now, created) <==>
          c.freezeTime.Some? && c.freezeTime.value < created <= lever)
      && (!Hidden(c, now, created) && Hidden(pulled, now, created) <==>
          lever < created && !(c.freezeTime.Some? && c.freezeTime.value < now && c.freezeTime.value < created))
  {
  }

  // ---------------------------------------------------------------- the handlers, on values

  // freezeOptions on a contest being created (blank, id 0) or updated.
  function WithOptions(c: Contest, p: Payload, creating: bool): Contest {
    var c1 :=
      match p.freezeEnabled
      case Some(on) =>
        if on then c.(freezeEnabled := true)
        else c.(freezeEnabled := false, freezeTime := None, manualFrozen := false, manualFrozenAt := None)
      case None => if c.freezeTime == None && creating then c.(freezeEnabled := true) else c;
    match p.noManualFreeze
    case Some(forbid) =>
      if forbid then c1.(noManualFreeze := true, manualFrozen := false, manualFrozenAt := None)
      else c1.(noManualFreeze := false)
    case None => if creating then c1.(noManualFreeze := false) else c1
  }

  // The insert leaves a false freeze_enabled to the column's default, which is true.
  function Inserted(c: Contest): Contest { c.(freezeEnabled := true) }

  function Created(p: Payload): Contest {
    Inserted(WithOptions(Contest(p.start, p.end, p.freezeTime, false, false, false, None), p, true))
  }

  // updateContest edits the row it loaded and saves all of it.
  function AfterUpdate(loaded: Contest, p: Payload): Contest {
    WithOptions(loaded.(start := p.start, end := p.end, freezeTime := p.freezeTime), p, false)
  }

  // setContestFreeze checks the row it loaded and writes two columns.
  function AfterFreeze(loaded: Contest, row: Contest, frozen: bool, now: int): Contest {
    if loaded.noManualFreeze then row
    else row.(manualFrozen := frozen, manualFrozenAt := if frozen then Some(now) else None)
  }

  function AfterSetTime(row: Contest, start: int, end: int): Contest {
    if end > start then row.(start := start, end := end) else row
  }

  /** A request to create a contest without a freeze only takes away the automatic freeze: the new
      contest is not frozen, but as soon as the lever is pulled it is, unless the request forbids the
      lever too.  The same request as an update switches the freeze off for good. */
  lemma DisabledAtCreation(p: Payload, c: Contest, lever: int, now: int)
    requires p.freezeEnabled == Some(false)
    ensures !ContestFrozen(Created(p), now)
    ensures ContestFrozen(AfterFreeze(Created(p), Created(p), true, lever), now) <==>
            p.noManualFreeze != Some(true) && now <= p.end
    ensures !ContestFrozen(AfterFreeze(AfterUpdate(c, p), AfterUpdate(c, p), true, lever), now)
  {
  }

  // ---------------------------------------------------------------- the handlers, on the record

  class ContestRecord {
    var start: int
    var end: int
    var freezeTime: Option<int>
    var freezeEnabled: bool
    var noManualFreeze: bool
    var manualFrozen: bool
    var manualFrozenAt: Option<int>

    ghost function View(): Contest
      reads this
    {
      Contest(start, end, freezeTime, freezeEnabled, noManualFreeze, manualFrozen, manualFrozenAt)
    }

    constructor Create(p: Payload)
      ensures View() == Created(p)
    {
      start, end, freezeTime := p.start, p.end, p.freezeTime;
      freezeEnabled, noManualFreeze, manualFrozen, manualFrozenAt := false, false, false, None;
      new;
      FreezeOptions(p, true);
      if !freezeEnabled {
        freezeEnabled := true;    // the column's default
      }
    }

    method FreezeOptions(p: Payload, creating: bool)
      modifies this
      ensures View() == WithOptions(old(View()), p, creating)
    {
      if p.freezeEnabled.Some? {
        freezeEnabled := p.freezeEnabled.value;
        if !freezeEnabled {
          freezeTime := None;
          manualFrozen := false;
          manualFrozenAt := None;
        }
      } else if freezeTime == None && creating {
        freezeEnabled := true;
      }
      if p.noManualFreeze.Some? {
        noManualFreeze := p.noManualFreeze.value;
        if noManualFreeze {
          manualFrozen := false;
          manualFrozenAt := None;
        }
      } else if creating {
        noManualFreeze := false;
      }
    }

    method Update(p: Payload)
      modifies this
      ensures View() == AfterUpdate(old(View()), p)
    {
      start := p.start;
      end := p.end;
      freezeTime := p.freezeTime;
      FreezeOptions(p, false);
    }

    // False is the 400 answer.
    method SetFreeze(frozen: bool, now: int) returns (ok: bool)
      modifies this`manualFrozen, this`manualFrozenAt
      ensures ok == !noManualFreeze && View() == AfterFreeze(old(View()), old(View()), frozen, now)
    {
      if noManualFreeze {
        return false;
      }
      manualFrozen := frozen;
      manualFrozenAt := if frozen then Some(now) else None;
      return true;
    }

    method SetTime(newStart: int, newEnd: int) returns (ok: bool)
      modifies this`start, this`end
      ensures ok == (newEnd > newStart) && View() == AfterSetTime(old(View()), newStart, newEnd)
    {
      if newEnd <= newStart {
        return false;
      }
      start, end := newStart, newEnd;
      return true;
    }
  }

  // ---------------------------------------------------------------- requests that overlap

  datatype Request = Update(p: Payload) | SetFreeze(frozen: bool, now: int) | SetTime(start: int, end: int)

  // A handler between its read of the row and its write.
  datatype Open = Open(request: Request, loaded: Contest)

  datatype System = System(row: Contest, open: map<nat, Open>)

  datatype Step = Load(k: nat, request: Request) | Store(k: nat)

  predicate Enabled(s: System, a: Step) { a.Load? <==> a.k !in s.open }

  function Stored(row: Contest, o: Open): Contest {
    match o.request
    case Update(p) => AfterUpdate(o.loaded, p)
    case SetFreeze(frozen, now) => AfterFreeze(o.loaded, row, frozen, now)
    case SetTime(start, end) => AfterSetTime(row, start, end)
  }

  function Next(s: System, a: Step): System
    requires Enabled(s, a)
  {
    match a
    case Load(k, request) => s.(open := s.open[k := Open(request, s.row)])
    case Store(k) => System(Stored(s.row, s.open[k]), s.open - {k})
  }

  predicate Runs(s: System, steps: seq<Step>, t: System)
    decreases |steps|
  {
    if steps == [] then t == s
    else Enabled(s, steps[0]) && Runs(Next(s, steps[0]), steps[1..], t)
  }

  // A run from the creation of the contest, with any overlap of handlers.
  predicate Reaches(p: Payload, steps: seq<Step>, t: System) { Runs(System(Created(p), map[]), steps, t) }

  ghost predicate AllPaired(s: System) { Paired(s.row) && forall k | k in s.open :: Paired(s.open[k].loaded) }

  lemma NextPaired(s: System, a: Step)
    requires AllPaired(s) && Enabled(s, a)
    ensures AllPaired(Next(s, a))
  {
  }

  lemma {:induction false} RunPaired(s: System, steps: seq<Step>, t: System)
    requires AllPaired(s) && Runs(s, steps, t)
    ensures AllPaired(t)
    decreases |steps|
  {
    if steps != [] {
      NextPaired(s, steps[0]);
      RunPaired(Next(s, steps[0]), steps[1..], t);
    }
  }

  /** However the handlers overlap, lever and timestamp go together, so at every instant the board is
      frozen exactly when it has an instant to mask from. */
  lemma FrozenIffPointAlways(p: Payload, steps: seq<Step>, s: System, now: int)
    requires Reaches(p, steps, s)
    ensures Paired(s.row) && (ContestFrozen(s.row, now) <==> FreezePoint(s.row, now).Some?)
  {
    RunPaired(System(Created(p), map[]), steps, s);
    FrozenIffPoint(s.row, now);
  }

  ghost predicate AllExclusive(s: System) {
    Exclusive(s.row) && forall k | k in s.open :: Exclusive(s.open[k].loaded)
  }

  // A handler about to pull a lever that was forbidden after it looked.
  predicate StaleLever(s: System, a: Step)
    requires Enabled(s, a)
  {
    a.Store? &&
    var o := s.open[a.k];
    o.request.SetFreeze? && o.request.frozen && !o.loaded.noManualFreeze && s.row.noManualFreeze
  }

  /** Forbidding the lever excludes a manual freeze after a step if and only if the step is not a
      write of the lever that was forbidden between the handler's check and its write. */
  lemma ExclusiveIffNotStale(s: System, a: Step)
    requires AllExclusive(s) && Enabled(s, a)
    ensures Exclusive(Next(s, a).row) <==> !StaleLever(s, a)
    ensures !StaleLever(s, a) ==> AllExclusive(Next(s, a))
  {
  }

  // No step of a run is such a write.
  predicate NeverStale(s: System, steps: seq<Step>)
    decreases |steps|
  {
    steps != [] ==>
      Enabled(s, steps[0]) && !StaleLever(s, steps[0]) && NeverStale(Next(s, steps[0]), steps[1..])
  }

  // The row is exclusive from the start to the end of a run.
  predicate AlwaysExclusive(s: System, steps: seq<Step>)
    decreases |steps|
  {
    Exclusive(s.row) &&
    (steps != [] ==> Enabled(s, steps[0]) && AlwaysExclusive(Next(s, steps[0]), steps[1..]))
  }

  lemma {:induction false} RunExclusive(s: System, steps: seq<Step>, t: System)
    requires AllExclusive(s) && Runs(s, steps, t)
    ensures AlwaysExclusive(s, steps) <==> NeverStale(s, steps)
    ensures NeverStale(s, steps) ==> AllExclusive(t)
    decreases |steps|
  {
    if steps != [] {
      ExclusiveIffNotStale(s, steps[0]);
      if !StaleLever(s, steps[0]) {
        RunExclusive(Next(s, steps[0]), steps[1..], t);
      }
    }
  }

  /** However the handlers overlap, no contest of a run is manually frozen while it forbids the lever
      if and only if no step of the run is such a write. */
  lemma ExclusiveRunIff(p: Payload, steps: seq<Step>, t: System)
    requires Reaches(p, steps, t)
    ensures AlwaysExclusive(System(Created(p), map[]), steps) <==> NeverStale(System(Created(p), map[]), steps)
    ensures NeverStale(System(Created(p), map[]), steps) ==> AllExclusive(t)
  {
    RunExclusive(System(Created(p), map[]), steps, t);
  }

  // Such a race is reachable: the lever is pulled on a contest that has just forbidden it.
  lemma StaleLeverReachable()
    ensures
      var p := Payload(0, 100, None, None, None);
      var forbid := Update(p.(noManualFreeze := Some(true)));
      exists s :: Reaches(p, [Load(0, SetFreeze(true, 10)), Load(1, forbid), Store(1), Store(0)], s) &&
                  s.row.noManualFreeze && s.row.manualFrozen
  {
    var p := Payload(0, 100, None, None, None);
    var forbid := Update(p.(noManualFreeze := Some(true)));
    var s1 := Next(System(Created(p), map[]), Load(0, SetFreeze(true, 10)));
    var s2 := Next(s1, Load(1, forbid));
    var s3 := Next(s2, Store(1));
    var s4 := Next(s3, Store(0));
    assert Runs(s3, [Store(0)], s4) by { assert [Store(0)][1..] == []; }
    assert Runs(s2, [Store(1), Store(0)], s4) by { assert [Store(1), Store(0)][1..] == [Store(0)]; }
    var tail := [Load(1, forbid), Store(1), Store(0)];
    assert Runs(s1, tail, s4) by { assert tail[1..] == [Store(1), Store(0)]; }
    var steps := [Load(0, SetFreeze(true, 10))] + tail;
    assert Reaches(p, steps, s4);
  }

  // Handlers one after the other, each writing before the next one reads.
  function OneByOne(c: Contest, requests: seq<Request>): Contest
    decreases |requests|
  {
    if requests == [] then c else OneByOne(Stored(c, Open(requests[0], c)), requests[1..])
  }

  lemma {:induction false} OneByOneKeeps(c: Contest, requests: seq<Request>)
    requires Paired(c) && Exclusive(c)
    ensures Paired(OneByOne(c, requests)) && Exclusive(OneByOne(c, requests))
    decreases |requests|
  {
    if requests != [] {
      OneByOneKeeps(Stored(c, Open(requests[0], c)), requests[1..]);
    }
  }

  /** Without overlap, forbidding the lever always excludes a manual freeze. */
  lemma ExclusiveWithoutOverlap(p: Payload, requests: seq<Request>)
    ensures Exclusive(OneByOne(Created(p), requests))
  {
    OneByOneKeeps(Created(p), requests);
  }
}
