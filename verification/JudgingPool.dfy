/** The parallel path of judgeCases (backend/pkg/judge/judge_parallel.go) as a state machine: a feeder
    hands case positions to a pool of workers, every worker judges, stores its result, reports it,
    and cancels the siblings after an SE.  Every interleaving is a run of this machine. */
module JudgingPool {
  import opened Judging
  import opened Options
  import opened Ordering

  // Where a worker goroutine is in its loop.
  datatype Worker =
    | Idle
    | Running(i: nat)     // inside judgeOneCase
    | Reporting(i: nat)   // result stored, OnCase not called yet
    | Cancelling          // reported an SE, about to cancel

  datatype Pool = Pool(
    next: nat,                               // cases handed out so far
    workers: seq<Worker>,
    results: seq<Option<CaseResult>>,
    cancelled: bool,
    reported: seq<nat>)                      // positions OnCase was called for, in order

  predicate Init(n: nat, workers: nat, s: Pool) {
    && s.next == 0 && |s.workers| == workers && |s.results| == n && !s.cancelled && s.reported == []
    && (forall w | 0 <= w < workers :: s.workers[w] == Idle)
    && (forall i | 0 <= i < n :: s.results[i] == None)
  }

  datatype Action = Take | Finish(out: CaseResult) | Report | Cancel

  // A cancelled context only spoils fetches that have not happened yet, and a checker may even run
  // without the answer: after cancellation a worker may produce any result for its own case.
  predicate Possible(judge: CaseRef -> CaseResult, c: CaseRef, cancelled: bool, out: CaseResult) {
    out == judge(c) || (cancelled && out.index == c.index && out.score == c.score && out.verdict != SKIPPED)
  }

  predicate Enabled(judge: CaseRef -> CaseResult, refs: seq<CaseRef>, s: Pool, w: nat, a: Action) {
    && w < |s.workers|
    && match a
       case Take => s.workers[w] == Idle && s.next < |refs|
       case Finish(out) =>
         s.workers[w].Running? && s.workers[w].i < |refs| && Possible(judge, refs[s.workers[w].i], s.cancelled, out)
       case Report => s.workers[w].Reporting? && s.workers[w].i < |s.results| && s.results[s.workers[w].i].Some?
       case Cancel => s.workers[w] == Cancelling
  }

  function Next(judge: CaseRef -> CaseResult, refs: seq<CaseRef>, s: Pool, w: nat, a: Action): Pool
    requires |s.results| == |refs| && Enabled(judge, refs, s, w, a)
  {
    match a
    case Take => s.(workers := s.workers[w := Running(s.next)], next := s.next + 1)
    case Finish(out) =>
      var i := s.workers[w].i;
      s.(workers := s.workers[w := Reporting(i)], results := s.results[i := Some(out)])
    case Report =>
      var i := s.workers[w].i;
      s.(workers := s.workers[w := if s.results[i].value.verdict == SE then Cancelling else Idle],
         reported := s.reported + [i])
    case Cancel => s.(workers := s.workers[w := Idle], cancelled := true)
  }

  predicate Done(refs: seq<CaseRef>, s: Pool) {
    s.next == |refs| && forall w | 0 <= w < |s.workers| :: s.workers[w] == Idle
  }

  // ---------------------------------------------------------------- invariants

  ghost predicate RunsCase(s: Pool, i: nat) { exists w :: 0 <= w < |s.workers| && s.workers[w] == Running(i) }

  ghost predicate ReportsCase(s: Pool, i: nat) { exists w :: 0 <= w < |s.workers| && s.workers[w] == Reporting(i) }

  // A case position moves from the feeder through one worker to a stored and then reported result.
  ghost predicate Tracked(s: Pool) {
    && s.next <= |s.results|
    && (forall i | s.next <= i < |s.results| :: s.results[i] == None)
    && (forall i | 0 <= i < s.next :: s.results[i] == None ==> RunsCase(s, i))
    && (forall w | 0 <= w < |s.workers| && s.workers[w].Running? ::
          s.workers[w].i < s.next && s.results[s.workers[w].i] == None)
    && (forall w | 0 <= w < |s.workers| && s.workers[w].Reporting? ::
          s.workers[w].i < s.next && s.results[s.workers[w].i].Some?)
  }

  ghost predicate OneWorkerPerCase(s: Pool) {
    forall v, w | 0 <= v < w < |s.workers| ::
      && (s.workers[v].Running? ==> s.workers[w] != s.workers[v])
      && (s.workers[v].Reporting? ==> s.workers[w] != s.workers[v])
  }

  ghost predicate ReportedOnce(s: Pool) {
    && (forall k, l | 0 <= k < l < |s.reported| :: s.reported[k] != s.reported[l])
    && (forall i | i in s.reported :: i < |s.results| && s.results[i].Some? && !ReportsCase(s, i))
    && (forall i: nat | i < |s.results| && s.results[i].Some? :: i in s.reported || ReportsCase(s, i))
  }

  ghost predicate StoredSE(s: Pool, i: nat) {
    i < |s.results| && s.results[i].Some? && s.results[i].value.verdict == SE
  }

  // Until somebody cancels, every stored result is the case's own; an SE is stored only if some
  // case's own verdict is SE, and only a stored SE leads to cancellation.
  ghost predicate Genuine(judge: CaseRef -> CaseResult, refs: seq<CaseRef>, s: Pool) {
    && |s.results| == |refs|
    && (forall i | 0 <= i < |refs| && s.results[i].Some? :: Possible(judge, refs[i], s.cancelled, s.results[i].value))
    && ((exists i: nat :: StoredSE(s, i)) ==>
          exists i: nat :: StoredSE(s, i) && s.results[i].value == judge(refs[i]))
    && (s.cancelled || (exists w :: 0 <= w < |s.workers| && s.workers[w] == Cancelling) ==>
          exists i: nat :: StoredSE(s, i))
  }

  ghost predicate Inv(judge: CaseRef -> CaseResult, refs: seq<CaseRef>, s: Pool) {
    Tracked(s) && OneWorkerPerCase(s) && ReportedOnce(s) && Genuine(judge, refs, s)
  }

  lemma InitInv(judge: CaseRef -> CaseResult, refs: seq<CaseRef>, workers: nat, s: Pool)
    requires Init(|refs|, workers, s)
    ensures Inv(judge, refs, s)
  {
  }

  lemma NextTracked(judge: CaseRef -> CaseResult, refs: seq<CaseRef>, s: Pool, w: nat, a: Action)
    requires Inv(judge, refs, s) && Enabled(judge, refs, s, w, a)
    ensures Tracked(Next(judge, refs, s, w, a))
  {
    var s' := Next(judge, refs, s, w, a);
    forall i | 0 <= i < s'.next && s'.results[i] == None
      ensures RunsCase(s', i)
    {
      if a.Take? && i == s.next {
        assert s'.workers[w] == Running(i);
      } else {
        var v :| 0 <= v < |s.workers| && s.workers[v] == Running(i);
        assert s'.workers[v] == Running(i);
      }
    }
  }

  lemma NextOneWorker(judge: CaseRef -> CaseResult, refs: seq<CaseRef>, s: Pool, w: nat, a: Action)
    requires Inv(judge, refs, s) && Enabled(judge, refs, s, w, a)
    ensures OneWorkerPerCase(Next(judge, refs, s, w, a))
  {
  }

  lemma NextReported(judge: CaseRef -> CaseResult, refs: seq<CaseRef>, s: Pool, w: nat, a: Action)
    requires Inv(judge, refs, s) && Enabled(judge, refs, s, w, a)
    ensures ReportedOnce(Next(judge, refs, s, w, a))
  {
    var s' := Next(judge, refs, s, w, a);
    forall i: nat
      ensures ReportsCase(s', i) <==>
              (ReportsCase(s, i) && s.workers[w] != Reporting(i)) || (a.Finish? && s.workers[w] == Running(i))
    {
      if ReportsCase(s, i) && s.workers[w] != Reporting(i) {
        var v :| 0 <= v < |s.workers| && s.workers[v] == Reporting(i);
        assert s'.workers[v] == Reporting(i);
      }
      if a.Finish? && s.workers[w] == Running(i) {
        assert s'.workers[w] == Reporting(i);
      }
    }
  }

  lemma NextGenuine(judge: CaseRef -> CaseResult, refs: seq<CaseRef>, s: Pool, w: nat, a: Action)
    requires Inv(judge, refs, s) && Enabled(judge, refs, s, w, a)
    ensures Genuine(judge, refs, Next(judge, refs, s, w, a))
  {
    var s' := Next(judge, refs, s, w, a);
    if exists i: nat :: StoredSE(s, i) {
      var i: nat :| StoredSE(s, i) && s.results[i].value == judge(refs[i]);
      assert StoredSE(s', i);
    } else if a.Finish? {
      var i := s.workers[w].i;
    } else if a.Report? {
      assert !StoredSE(s, s.workers[w].i);
    }
  }

  /** Every step of every interleaving keeps the invariant. */
  lemma NextInv(judge: CaseRef -> CaseResult, refs: seq<CaseRef>, s: Pool, w: nat, a: Action)
    requires Inv(judge, refs, s) && Enabled(judge, refs, s, w, a)
    ensures Inv(judge, refs, Next(judge, refs, s, w, a))
  {
    NextTracked(judge, refs, s, w, a);
    NextOneWorker(judge, refs, s, w, a);
    NextReported(judge, refs, s, w, a);
    NextGenuine(judge, refs, s, w, a);
  }

  // The states of one run, oldest first.
  ghost predicate IsRun(judge: CaseRef -> CaseResult, refs: seq<CaseRef>, workers: nat, run: seq<Pool>) {
    && run != [] && Init(|refs|, workers, run[0])
    && forall k | 0 < k < |run| :: IsStep(judge, refs, run[k - 1], run[k])
  }

  ghost predicate IsStep(judge: CaseRef -> CaseResult, refs: seq<CaseRef>, s: Pool, s': Pool) {
    |s.results| == |refs| && exists w, a :: Enabled(judge, refs, s, w, a) && s' == Next(judge, refs, s, w, a)
  }

  lemma {:induction false} RunInv(judge: CaseRef -> CaseResult, refs: seq<CaseRef>, workers: nat, run: seq<Pool>)
    requires IsRun(judge, refs, workers, run)
    ensures Inv(judge, refs, run[|run| - 1]) && |run[|run| - 1].workers| == workers
  {
    if |run| == 1 {
      InitInv(judge, refs, workers, run[0]);
    } else {
      var n := |run| - 1;
      RunInv(judge, refs, workers, run[..n]);
      var w, a :| Enabled(judge, refs, run[n - 1], w, a) && run[n] == Next(judge, refs, run[n - 1], w, a);
      NextInv(judge, refs, run[n - 1], w, a);
    }
  }

  // ---------------------------------------------------------------- progress

  function Weight(w: Worker): nat {
    match w
    case Idle => 0
    case Running(_) => 3
    case Reporting(_) => 2
    case Cancelling => 1
  }

  function TotalWeight(ws: seq<Worker>): nat {
    if ws == [] then 0 else Weight(ws[0]) + TotalWeight(ws[1..])
  }

  function WorkLeft(n: nat, s: Pool): int { 4 * (n - s.next) + TotalWeight(s.workers) }

  lemma {:induction false} WeightUpdate(ws: seq<Worker>, w: nat, x: Worker)
    requires w < |ws|
    ensures TotalWeight(ws[w := x]) == TotalWeight(ws) - Weight(ws[w]) + Weight(x)
  {
    if w > 0 {
      WeightUpdate(ws[1..], w - 1, x);
    }
  }

  /** The pool terminates: each step uses up work, so a run over n cases has at most 4n steps. */
  lemma NextUsesWork(judge: CaseRef -> CaseResult, refs: seq<CaseRef>, s: Pool, w: nat, a: Action)
    requires Inv(judge, refs, s) && Enabled(judge, refs, s, w, a)
    ensures 0 <= WorkLeft(|refs|, Next(judge, refs, s, w, a)) < WorkLeft(|refs|, s)
  {
    WeightUpdate(s.workers, w, Next(judge, refs, s, w, a).workers[w]);
  }

  /** The pool never gets stuck: with at least one worker, a state in which nothing can happen is done. */
  lemma NeverStuck(judge: CaseRef -> CaseResult, refs: seq<CaseRef>, s: Pool)
    requires Inv(judge, refs, s) && s.workers != [] && !Done(refs, s)
    ensures exists w, a :: Enabled(judge, refs, s, w, a)
  {
    if w :| 0 <= w < |s.workers| && s.workers[w] != Idle {
      match s.workers[w]
      case Running(i) => assert Enabled(judge, refs, s, w, Finish(judge(refs[i])));
      case Reporting(i) => assert Enabled(judge, refs, s, w, Report);
      case Cancelling => assert Enabled(judge, refs, s, w, Cancel);
    } else {
      assert Enabled(judge, refs, s, 0, Take);
    }
  }

  // ---------------------------------------------------------------- the outcome

  // The results appended to the report, in position order.
  function Stored(results: seq<Option<CaseResult>>): (r: seq<CaseResult>)
    ensures (forall i | 0 <= i < |results| :: results[i].Some?) ==>
              |r| == |results| && forall i | 0 <= i < |r| :: r[i] == results[i].value
  {
    if results == [] then []
    else
      var init := Stored(results[..|results| - 1]);
      match results[|results| - 1]
      case None => init
      case Some(r) => init + [r]
  }

  /** Every case is judged by exactly one worker and OnCase fires exactly once for it. */
  lemma DoneReportsEachOnce(judge: CaseRef -> CaseResult, refs: seq<CaseRef>, s: Pool)
    requires Inv(judge, refs, s) && Done(refs, s)
    ensures forall i | 0 <= i < |refs| :: s.results[i].Some?
    ensures forall i: nat :: i in s.reported <==> i < |refs|
    ensures forall k, l | 0 <= k < l < |s.reported| :: s.reported[k] != s.reported[l]
  {
    forall i: nat | i < |refs|
      ensures s.results[i].Some? && i in s.reported
    {
      assert !RunsCase(s, i) && !ReportsCase(s, i);
    }
  }

  /** Against the serial full run: the pool reports an SE exactly when some case's own verdict is SE,
      and when none is, its results are the serial ones, case by case. */
  lemma DoneMatchesFullRun(judge: CaseRef -> CaseResult, refs: seq<CaseRef>, s: Pool)
    requires Inv(judge, refs, s) && Done(refs, s)
    ensures HasSE(Stored(s.results)) <==> HasSE(FullRun(judge, refs))
    ensures !HasSE(FullRun(judge, refs)) ==> Stored(s.results) == FullRun(judge, refs)
    ensures |Stored(s.results)| == |refs|
  {
    DoneReportsEachOnce(judge, refs, s);
    var full, got := FullRun(judge, refs), Stored(s.results);
    if HasSE(full) {
      var c :| c in full && c.verdict == SE;
      var i: nat :| i < |full| && full[i] == c;
      if got[i] == judge(refs[i]) {
        assert got[i] in got;
      } else {
        assert s.cancelled;
        var j: nat :| StoredSE(s, j);
        assert got[j] in got;
      }
    } else {
      forall i: nat
        ensures !StoredSE(s, i)
      {
        if exists j: nat :: StoredSE(s, j) {
          var j: nat :| StoredSE(s, j) && s.results[j].value == judge(refs[j]);
          assert full[j] in full;
        }
      }
      assert !s.cancelled;
      assert got == full;
    }
  }

  lemma SortedVerdictSE(cs: seq<CaseResult>, sorted: seq<CaseResult>)
    requires IsSortOf(ByIndex, cs, sorted)
    ensures VerdictOf(sorted) == SE <==> HasSE(cs)
  {
    SortedVerdictDecides(cs, sorted);
  }

  lemma DoneRefinesSerial(judge: CaseRef -> CaseResult, refs: seq<CaseRef>, s: Pool,
                          report: seq<CaseResult>, sortedP: seq<CaseResult>, sortedS: seq<CaseResult>)
    requires Inv(judge, refs, s) && Done(refs, s) && DistinctIndices(FullRun(judge, refs))
    requires multiset(report) == multiset(Stored(s.results))
    requires IsSortOf(ByIndex, report, sortedP) && IsSortOf(ByIndex, FullRun(judge, refs), sortedS)
    ensures VerdictOf(sortedP) == VerdictOf(sortedS)
    ensures VerdictOf(sortedS) != SE ==> sortedP == sortedS && multiset(report) == multiset(FullRun(judge, refs))
  {
    DoneMatchesFullRun(judge, refs, s);
    var full := FullRun(judge, refs);
    SortedVerdictSE(report, sortedP);
    SortedVerdictSE(full, sortedS);
    SameMembers(Stored(s.results), report);
    if !HasSE(full) {
      DistinctElements(full);
      SortIsUnique(ByIndex, sortedS, sortedP);
    }
  }

  /** Parallel refines serial: whatever the interleaving, the collapsed verdict is that of the serial
      run, and unless it is SE so are the credit and the time and memory maxima. */
  lemma ParallelRefinesSerial(judge: CaseRef -> CaseResult, refs: seq<CaseRef>, workers: nat, run: seq<Pool>,
                              report: seq<CaseResult>, sortedP: seq<CaseResult>, sortedS: seq<CaseResult>, base: int)
    requires IsJudge(judge) && IsRun(judge, refs, workers, run) && Done(refs, run[|run| - 1])
    requires forall i, j | 0 <= i < j < |refs| :: refs[i].index != refs[j].index
    requires IsSortOf(ByIndex, Stored(run[|run| - 1].results), report)
    requires IsSortOf(ByIndex, report, sortedP) && IsSortOf(ByIndex, FullRun(judge, refs), sortedS)
    ensures VerdictOf(sortedP) == VerdictOf(sortedS)
    ensures VerdictOf(sortedS) != SE ==>
              && CreditOf(sortedP) == CreditOf(sortedS)
              && MaxTime(base, report) == MaxTime(base, FullRun(judge, refs))
              && MaxMem(base, report) == MaxMem(base, FullRun(judge, refs))
  {
    RunInv(judge, refs, workers, run);
    DoneRefinesSerial(judge, refs, run[|run| - 1], report, sortedP, sortedS);
    if VerdictOf(sortedS) != SE {
      SameMembers(report, FullRun(judge, refs));
      MaximaOfMembers(base, report, FullRun(judge, refs));
    }
  }
}
