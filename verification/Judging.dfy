/** Judging one submission (backend/pkg/judge/judge.go, judge_parallel.go): the serial loop with its
    stop-on-fail mode, and the collapse of per-case results into the submission's verdict.
    Judging a single case is a function of the case, passed in as `judge`. */
module Judging {
  import opened Ordering

  datatype Verdict = AC | WA | TLE | MLE | RE | SE | SKIPPED

  datatype CaseRef = CaseRef(index: int, score: int, input: string, answer: string)

  datatype CaseResult = CaseResult(index: int, verdict: Verdict, timeMS: int, memKB: int, score: int) {
    predicate Failed() { verdict != AC && verdict != SKIPPED }
  }

  // A case's result carries the case's own index and credit; only the loop itself reports SKIPPED.
  ghost predicate IsJudge(judge: CaseRef -> CaseResult) {
    forall c :: judge(c).index == c.index && judge(c).score == c.score && judge(c).verdict != SKIPPED
  }

  predicate ByIndex(a: CaseResult, b: CaseResult) { a.index < b.index }

  // ---------------------------------------------------------------- the verdict

  predicate AnyFailed(cs: seq<CaseResult>) { exists i :: 0 <= i < |cs| && cs[i].Failed() }

  lemma AnyFailedAppend(cs: seq<CaseResult>, c: CaseResult)
    ensures AnyFailed(cs + [c]) <==> AnyFailed(cs) || c.Failed()
  {
    if AnyFailed(cs) {
      var i :| 0 <= i < |cs| && cs[i].Failed();
      assert (cs + [c])[i].Failed();
    }
    if c.Failed() {
      assert (cs + [c])[|cs|].Failed();
    }
  }

  predicate HasSE(cs: seq<CaseResult>) { exists c | c in cs :: c.verdict == SE }

  function FirstFailure(cs: seq<CaseResult>): Verdict {
    if cs == [] then AC else if cs[0].Failed() then cs[0].verdict else FirstFailure(cs[1..])
  }

  // Of a list in case order: an SE anywhere wins, else the first failure decides, else AC.
  function VerdictOf(cs: seq<CaseResult>): Verdict { if HasSE(cs) then SE else FirstFailure(cs) }

  // Credit of the accepted cases before the first SE.
  function CreditOf(cs: seq<CaseResult>): int {
    if cs == [] || cs[0].verdict == SE then 0
    else (if cs[0].verdict == AC then cs[0].score else 0) + CreditOf(cs[1..])
  }

  function Max(a: int, b: int): int { if a < b then b else a }

  function MaxTime(base: int, cs: seq<CaseResult>): int {
    if cs == [] then base else Max(MaxTime(base, cs[..|cs| - 1]), cs[|cs| - 1].timeMS)
  }

  function MaxMem(base: int, cs: seq<CaseResult>): int {
    if cs == [] then base else Max(MaxMem(base, cs[..|cs| - 1]), cs[|cs| - 1].memKB)
  }

  /** The maxima do not depend on the order of the cases. */
  lemma MaximaOfMembers(base: int, cs: seq<CaseResult>, ds: seq<CaseResult>)
    requires forall c :: c in cs <==> c in ds
    ensures MaxTime(base, cs) == MaxTime(base, ds) && MaxMem(base, cs) == MaxMem(base, ds)
  {
    MaximaAre(base, cs);
    MaximaAre(base, ds);
  }

  lemma {:induction false} MaximaAre(base: int, cs: seq<CaseResult>)
    ensures base <= MaxTime(base, cs) && base <= MaxMem(base, cs)
    ensures forall c | c in cs :: c.timeMS <= MaxTime(base, cs) && c.memKB <= MaxMem(base, cs)
    ensures MaxTime(base, cs) == base || exists c | c in cs :: c.timeMS == MaxTime(base, cs)
    ensures MaxMem(base, cs) == base || exists c | c in cs :: c.memKB == MaxMem(base, cs)
  {
    if cs != [] {
      var init := cs[..|cs| - 1];
      MaximaAre(base, init);
    }
  }

  // The verdict in words that do not mention an order of the list.
  ghost predicate Decides(cs: seq<CaseResult>, v: Verdict) {
    && (v == SE <==> HasSE(cs))
    && (v == AC <==> forall c | c in cs :: !c.Failed())
    && (v != SE && v != AC ==> exists c :: LeastFailing(cs, c) && c.verdict == v)
  }

  ghost predicate LeastFailing(cs: seq<CaseResult>, c: CaseResult) {
    c in cs && c.Failed() && forall d | d in cs && d.Failed() :: c.index <= d.index
  }

  lemma {:induction false} FirstFailureIs(cs: seq<CaseResult>)
    ensures FirstFailure(cs) == AC <==> forall c | c in cs :: !c.Failed()
    ensures FirstFailure(cs) != AC ==>
              exists i :: 0 <= i < |cs| && cs[i].Failed() && cs[i].verdict == FirstFailure(cs) &&
                          forall j | 0 <= j < i :: !cs[j].Failed()
  {
    if cs != [] && !cs[0].Failed() {
      FirstFailureIs(cs[1..]);
    }
  }

  /** The verdict is a property of the set of results and their indices: SE if any case is SE, AC if
      none failed, else the verdict of a failing case of least index. */
  lemma SortedVerdictDecides(cs: seq<CaseResult>, sorted: seq<CaseResult>)
    requires IsSortOf(ByIndex, cs, sorted)
    ensures Decides(cs, VerdictOf(sorted))
  {
    SameMembers(cs, sorted);
    FirstFailureIs(sorted);
  }

  ghost predicate DistinctIndices(cs: seq<CaseResult>) {
    forall i, j | 0 <= i < j < |cs| :: cs[i].index != cs[j].index
  }

  /** With distinct indices the verdict is unique. */
  lemma DecidesIsUnique(cs: seq<CaseResult>, v: Verdict, w: Verdict)
    requires DistinctIndices(cs) && Decides(cs, v) && Decides(cs, w)
    ensures v == w
  {
    if v != SE && v != AC {
      var c :| LeastFailing(cs, c) && c.verdict == v;
      var e :| LeastFailing(cs, e) && e.verdict == w;
      var i, j :| 0 <= i < |cs| && 0 <= j < |cs| && cs[i] == c && cs[j] == e;
      assert c.index == e.index;
    }
  }

  // Verdict and credit come from some outcome of sorting the results by index.
  ghost predicate Collapses(cs: seq<CaseResult>, v: Verdict, score: int) {
    exists sorted :: IsSortOf(ByIndex, cs, sorted) && v == VerdictOf(sorted) && score == CreditOf(sorted)
  }

  lemma ScanStep(cs: seq<CaseResult>, i: nat)
    requires i < |cs|
    ensures HasSE(cs[..i + 1]) <==> HasSE(cs[..i]) || cs[i].verdict == SE
    ensures cs[i].verdict == SE ==> HasSE(cs) && CreditOf(cs[i..]) == 0
    ensures FirstFailure(cs[i..]) == if cs[i].Failed() then cs[i].verdict else FirstFailure(cs[i + 1..])
    ensures cs[i].verdict != SE ==>
              CreditOf(cs[i..]) == (if cs[i].verdict == AC then cs[i].score else 0) + CreditOf(cs[i + 1..])
  {
  }

  // The loop over the results in case order.
  method Collapse(sorted: seq<CaseResult>) returns (status: Verdict, credit: int)
    ensures status == VerdictOf(sorted) && credit == CreditOf(sorted)
  {
    status, credit := AC, 0;
    var i := 0;
    while i < |sorted|
      invariant 0 <= i <= |sorted| && status != SE
      invariant !HasSE(sorted[..i])
      invariant FirstFailure(sorted) == if status == AC then FirstFailure(sorted[i..]) else status
      invariant CreditOf(sorted) == credit + CreditOf(sorted[i..])
    {
      var c := sorted[i];
      if c.verdict == SE {
        status := SE;
        break;
      }
      if status == AC && c.verdict != AC && c.verdict != SKIPPED {
        status := c.verdict;
      }
      if c.verdict == AC {
        credit := credit + c.score;
      }
      i := i + 1;
    }
  }

  // ---------------------------------------------------------------- the result record

  class Result {
    var cases: seq<CaseResult>
    var verdict: Verdict
    var score: int
    var timeMS: int
    var memKB: int
    var reported: seq<CaseResult>  // the arguments of the OnCase callback, in call order

    constructor ()
      ensures cases == [] && reported == [] && timeMS == 0 && memKB == 0 && score == 0
    {
      cases, reported := [], [];
      verdict, score, timeMS, memKB := AC, 0, 0, 0;
    }

    /** Collapse the case results into the submission's verdict, credit, time and memory. */
    method Aggregate()
      modifies this
      ensures cases == old(cases) && reported == old(reported)
      ensures Decides(cases, verdict)
      ensures Collapses(cases, verdict, score)
      ensures timeMS == MaxTime(old(timeMS), cases) && memKB == MaxMem(old(memKB), cases)
    {
      var cs := cases;
      var sorted := SortSlice(cs, ByIndex);
      var status, credit := Collapse(sorted);
      SortedVerdictDecides(cs, sorted);
      verdict := status;
      score := credit;
      for k := 0 to |cs|
        invariant cases == cs && reported == old(reported) && verdict == status && score == credit
        invariant timeMS == MaxTime(old(timeMS), cs[..k]) && memKB == MaxMem(old(memKB), cs[..k])
      {
        assert cs[..k + 1][..k] == cs[..k];
        if cs[k].timeMS > timeMS {
          timeMS := cs[k].timeMS;
        }
        if cs[k].memKB > memKB {
          memKB := cs[k].memKB;
        }
      }
      assert cs[..|cs|] == cs;
    }

    // Whether some case already failed, scanning backwards.
    method CaseFailed() returns (failed: bool)
      ensures failed <==> AnyFailed(cases)
    {
      var i := |cases| - 1;
      while i >= 0
        invariant -1 <= i < |cases|
        invariant forall k | i < k < |cases| :: !cases[k].Failed()
      {
        if cases[i].verdict != AC && cases[i].verdict != SKIPPED {
          return true;
        }
        i := i - 1;
      }
      return false;
    }

    // One round of the serial loop.
    method JudgeNext(judge: CaseRef -> CaseResult, c: CaseRef, stopOnFail: bool)
      modifies this`cases, this`reported
      ensures
        var out := if stopOnFail && AnyFailed(old(cases)) then Skipped(c) else judge(c);
        && cases == old(cases) + [out] && reported == old(reported) + [out]
        && (AnyFailed(cases) <==> AnyFailed(old(cases)) || out.Failed())
    {
      var failed := CaseFailed();
      var out: CaseResult;
      if stopOnFail && failed {
        out := Skipped(c);
      } else {
        out := judge(c);
      }
      AnyFailedAppend(cases, out);
      cases := cases + [out];
      reported := reported + [out];
    }

    /** judgeCases on its serial path: the list is clipped, and a cancellation seen before a case ends
        the loop with an SE.  The result of a case that the cancellation hit is whatever `judge` says. */
    method JudgeSerially(judge: CaseRef -> CaseResult, refs: seq<CaseRef>, maxCases: nat, stopOnFail: bool,
                         canceledAt: nat)
      requires cases == [] && reported == []
      modifies this`cases, this`reported, this`verdict
      ensures cases == Report(judge, Judged(refs, maxCases, canceledAt), stopOnFail, false)
      ensures reported == cases
      ensures verdict == if canceledAt < |Clip(refs, maxCases)| then SE else old(verdict)
    {
      var list := Clip(refs, maxCases);
      ghost var judged, before := Clip(list, canceledAt), verdict;
      ghost var report := Report(judge, judged, stopOnFail, false);
      for i := 0 to |list|
        invariant i <= canceledAt && |report| == |judged| && cases == report[..i]
        invariant reported == cases && verdict == before
      {
        if i == canceledAt {
          verdict := SE;
          return;
        }
        assert list[i] == judged[i];
        ReportAt(judge, judged, i, stopOnFail);
        JudgeNext(judge, list[i], stopOnFail);
        assert report[..i + 1] == report[..i] + [report[i]];
      }
    }

    /** The end of Run: judging and then the collapse, which overwrites the SE of a cancellation. */
    method JudgeAndAggregate(judge: CaseRef -> CaseResult, refs: seq<CaseRef>, maxCases: nat, stopOnFail: bool,
                             canceledAt: nat)
      requires cases == [] && reported == []
      modifies this
      ensures cases == Report(judge, Judged(refs, maxCases, canceledAt), stopOnFail, false) && reported == cases
      ensures Decides(cases, verdict)
      ensures IsJudge(judge) && Ascending(refs) ==> verdict == VerdictOf(cases) && score == CreditOf(cases)
    {
      JudgeSerially(judge, refs, maxCases, stopOnFail, canceledAt);
      Aggregate();
      if IsJudge(judge) && Ascending(refs) {
        CollapseInOrder(judge, Judged(refs, maxCases, canceledAt), stopOnFail, verdict, score);
      }
    }
  }

  function Clip(refs: seq<CaseRef>, maxCases: nat): seq<CaseRef> {
    if |refs| > maxCases then refs[..maxCases] else refs
  }

  // The cases that are looked at before the limit or the cancellation.
  function Judged(refs: seq<CaseRef>, maxCases: nat, canceledAt: nat): seq<CaseRef> {
    Clip(Clip(refs, maxCases), canceledAt)
  }

  // ---------------------------------------------------------------- full and stop-on-fail runs

  function FullRun(judge: CaseRef -> CaseResult, refs: seq<CaseRef>): (r: seq<CaseResult>)
    ensures |r| == |refs| && forall i | 0 <= i < |refs| :: r[i] == judge(refs[i])
  {
    seq(|refs|, i requires 0 <= i < |refs| => judge(refs[i]))
  }

  function Skipped(c: CaseRef): CaseResult { CaseResult(c.index, SKIPPED, 0, 0, 0) }

  // Judge until something failed, then only skip.
  function StopRun(judge: CaseRef -> CaseResult, refs: seq<CaseRef>, failed: bool): (r: seq<CaseResult>)
    ensures |r| == |refs|
  {
    if refs == [] then []
    else
      var r := if failed then Skipped(refs[0]) else judge(refs[0]);
      [r] + StopRun(judge, refs[1..], failed || r.Failed())
  }

  // What the serial path reports, from the state in which some earlier case failed or not.
  function Report(judge: CaseRef -> CaseResult, refs: seq<CaseRef>, stopOnFail: bool, failed: bool): seq<CaseResult> {
    if stopOnFail then StopRun(judge, refs, failed) else FullRun(judge, refs)
  }

  // What is reported of a case depends on what was reported of those before it.
  lemma {:induction false} StopAt(judge: CaseRef -> CaseResult, refs: seq<CaseRef>, i: nat, failed: bool)
    requires i < |refs|
    ensures
      var report := StopRun(judge, refs, failed);
      report[i] == if failed || AnyFailed(report[..i]) then Skipped(refs[i]) else judge(refs[i])
  {
    if i > 0 {
      var report := StopRun(judge, refs, failed);
      var r, tail := report[0], StopRun(judge, refs[1..], failed || report[0].Failed());
      assert report == [r] + tail && report[..i] == [r] + tail[..i - 1];
      AnyFailedCons(r, tail[..i - 1]);
      StopAt(judge, refs[1..], i - 1, failed || r.Failed());
    }
  }

  lemma AnyFailedCons(r: CaseResult, rest: seq<CaseResult>)
    ensures AnyFailed([r] + rest) <==> r.Failed() || AnyFailed(rest)
  {
    var all := [r] + rest;
    if r.Failed() {
      assert all[0].Failed();
    } else if AnyFailed(rest) {
      var i :| 0 <= i < |rest| && rest[i].Failed();
      assert all[i + 1].Failed();
    }
  }

  lemma ReportAt(judge: CaseRef -> CaseResult, refs: seq<CaseRef>, i: nat, stopOnFail: bool)
    requires i < |refs|
    ensures
      var report := Report(judge, refs, stopOnFail, false);
      && |report| == |refs|
      && report[i] == if stopOnFail && AnyFailed(report[..i]) then Skipped(refs[i]) else judge(refs[i])
  {
    if stopOnFail {
      StopAt(judge, refs, i, false);
    }
  }

  lemma {:induction false} ReportIndices(judge: CaseRef -> CaseResult, refs: seq<CaseRef>, stopOnFail: bool,
                                         failed: bool)
    requires IsJudge(judge)
    ensures
      var report := Report(judge, refs, stopOnFail, failed);
      |report| == |refs| && forall i | 0 <= i < |refs| :: report[i].index == refs[i].index
  {
    if stopOnFail && refs != [] {
      ReportIndices(judge, refs[1..], stopOnFail, failed || judge(refs[0]).Failed());
    }
  }

  lemma CollapseInOrder(judge: CaseRef -> CaseResult, refs: seq<CaseRef>, stopOnFail: bool, v: Verdict, score: int)
    requires IsJudge(judge) && Ascending(refs) && Collapses(Report(judge, refs, stopOnFail, false), v, score)
    ensures
      var cs := Report(judge, refs, stopOnFail, false);
      v == VerdictOf(cs) && score == CreditOf(cs)
  {
    var cs := Report(judge, refs, stopOnFail, false);
    var sorted :| IsSortOf(ByIndex, cs, sorted) && v == VerdictOf(sorted) && score == CreditOf(sorted);
    ReportIndices(judge, refs, stopOnFail, false);
    ReportIsSorted(refs, cs, sorted);
  }

  // ---------------------------------------------------------------- runs that were cut short

  lemma {:induction false} ReportPrefix(judge: CaseRef -> CaseResult, refs: seq<CaseRef>, k: nat, stopOnFail: bool,
                                        failed: bool)
    requires k <= |refs|
    ensures |Report(judge, refs, stopOnFail, failed)| == |refs|
    ensures Report(judge, refs[..k], stopOnFail, failed) == Report(judge, refs, stopOnFail, failed)[..k]
  {
    if stopOnFail && k > 0 {
      var r := if failed then Skipped(refs[0]) else judge(refs[0]);
      assert refs[..k][1..] == refs[1..][..k - 1];
      ReportPrefix(judge, refs[1..], k - 1, stopOnFail, failed || r.Failed());
    }
  }

  lemma {:induction false} FailureOfPrefix(cs: seq<CaseResult>, k: nat)
    requires k <= |cs|
    ensures FirstFailure(cs) == if AnyFailed(cs[..k]) then FirstFailure(cs[..k]) else FirstFailure(cs[k..])
  {
    if k > 0 {
      assert cs[..k] == [cs[0]] + cs[1..][..k - 1] && cs[..k][1..] == cs[1..][..k - 1];
      AnyFailedCons(cs[0], cs[1..][..k - 1]);
      FailureOfPrefix(cs[1..], k - 1);
    }
  }

  lemma NoFailureIsAC(cs: seq<CaseResult>)
    ensures FirstFailure(cs) == AC <==> !AnyFailed(cs)
  {
    FirstFailureIs(cs);
    if !AnyFailed(cs) {
      assert forall c | c in cs :: !c.Failed();
    }
  }

  /** When the verdict of the first results is that of all. */
  lemma CutVerdictIff(cs: seq<CaseResult>, k: nat)
    requires k <= |cs|
    ensures VerdictOf(cs[..k]) == VerdictOf(cs) <==>
            HasSE(cs[..k]) || (!HasSE(cs[k..]) && (AnyFailed(cs[..k]) || !AnyFailed(cs[k..])))
  {
    assert cs == cs[..k] + cs[k..];
    FailureOfPrefix(cs, k);
    NoFailureIsAC(cs[..k]);
    NoFailureIsAC(cs[k..]);
    FirstFailureIs(cs[..k]);
  }

  /** The SE of a cancelled run does not survive the collapse: the run reports the verdict of the cases
      it judged, and if the cancellation spoilt none of them that is the verdict of the whole run, not
      cancelled and not clipped, exactly when an SE was seen, or no SE was to come and either a failure
      was seen or none was to come. */
  lemma CancelledVerdictIff(judge: CaseRef -> CaseResult, refs: seq<CaseRef>, maxCases: nat, stopOnFail: bool,
                            canceledAt: nat)
    ensures
      var whole := Report(judge, refs, stopOnFail, false);
      var seen := Report(judge, Judged(refs, maxCases, canceledAt), stopOnFail, false);
      && seen <= whole
      && (VerdictOf(seen) == VerdictOf(whole) <==>
          || HasSE(seen)
          || (!HasSE(whole[|seen|..]) && (AnyFailed(seen) || !AnyFailed(whole[|seen|..]))))
  {
    var k := |Judged(refs, maxCases, canceledAt)|;
    assert Judged(refs, maxCases, canceledAt) == refs[..k];
    ReportPrefix(judge, refs, k, stopOnFail, false);
    CutVerdictIff(Report(judge, refs, stopOnFail, false), k);
  }

  lemma {:induction false} SameReport(judge: CaseRef -> CaseResult, got: CaseRef -> CaseResult, refs: seq<CaseRef>,
                                      stopOnFail: bool, failed: bool)
    requires forall i | 0 <= i < |refs| :: got(refs[i]) == judge(refs[i])
    ensures Report(got, refs, stopOnFail, failed) == Report(judge, refs, stopOnFail, failed)
  {
    if stopOnFail && refs != [] {
      SameReport(judge, got, refs[1..], stopOnFail, failed || judge(refs[0]).Failed());
    }
  }

  // Which continuations of a report lead to the same verdict.
  lemma ContinuationIff(start: seq<CaseResult>, a: seq<CaseResult>, b: seq<CaseResult>)
    ensures VerdictOf(start + a) == VerdictOf(start + b) <==>
            || HasSE(start)
            || (if AnyFailed(start) then HasSE(a) == HasSE(b) else VerdictOf(a) == VerdictOf(b))
  {
    VerdictOfContinuation(start, a);
    VerdictOfContinuation(start, b);
    FirstFailureIs(start);
    NoFailureIsAC(start);
  }

  lemma VerdictOfContinuation(start: seq<CaseResult>, rest: seq<CaseResult>)
    ensures VerdictOf(start + rest) ==
            if HasSE(start) || HasSE(rest) then SE
            else if AnyFailed(start) then FirstFailure(start) else VerdictOf(rest)
  {
    var all := start + rest;
    assert all[..|start|] == start && all[|start|..] == rest;
    FailureOfPrefix(all, |start|);
  }

  /** A cancellation may also spoil the case it interrupts, the last one that was judged.  Then the run
      has the verdict of the whole run, with every case's own result, exactly when an SE came before
      that case; or a failure came before it, and an SE is among what was reported from it on exactly
      if one was to come; or neither, and what was reported from it on has the verdict that was to come. */
  lemma SpoiltVerdictIff(judge: CaseRef -> CaseResult, got: CaseRef -> CaseResult, refs: seq<CaseRef>,
                         maxCases: nat, stopOnFail: bool, canceledAt: nat)
    requires forall i | 0 <= i < |Judged(refs, maxCases, canceledAt)| - 1 :: got(refs[i]) == judge(refs[i])
    ensures
      var whole := Report(judge, refs, stopOnFail, false);
      var seen := Report(got, Judged(refs, maxCases, canceledAt), stopOnFail, false);
      var n := if seen == [] then 0 else |seen| - 1;
      && n <= |whole| && seen[..n] == whole[..n]
      && (VerdictOf(seen) == VerdictOf(whole) <==>
          || HasSE(whole[..n])
          || (if AnyFailed(whole[..n]) then HasSE(seen[n..]) == HasSE(whole[n..])
              else VerdictOf(seen[n..]) == VerdictOf(whole[n..])))
  {
    var judged := Judged(refs, maxCases, canceledAt);
    var k := |judged|;
    assert judged == refs[..k];
    var n := if k == 0 then 0 else k - 1;
    var whole, seen := Report(judge, refs, stopOnFail, false), Report(got, judged, stopOnFail, false);
    ReportPrefix(judge, refs, n, stopOnFail, false);
    ReportPrefix(got, judged, n, stopOnFail, false);
    assert judged[..n] == refs[..n];
    SameReport(judge, got, refs[..n], stopOnFail, false);
    assert seen == whole[..n] + seen[n..] && whole == whole[..n] + whole[n..];
    ContinuationIff(whole[..n], seen[n..], whole[n..]);
  }

  // A run cancelled before its first case reports AC.
  lemma CancelledAtOnce(judge: CaseRef -> CaseResult, refs: seq<CaseRef>, maxCases: nat, stopOnFail: bool)
    ensures VerdictOf(Report(judge, Judged(refs, maxCases, 0), stopOnFail, false)) == AC
  {
    assert Judged(refs, maxCases, 0) == [];
  }

  // ---------------------------------------------------------------- stop on fail

  // The number of leading accepted cases.
  function Accepted(judge: CaseRef -> CaseResult, refs: seq<CaseRef>): (k: nat)
    ensures k <= |refs|
    ensures forall i | 0 <= i < k :: judge(refs[i]).verdict == AC
    ensures k < |refs| ==> judge(refs[k]).verdict != AC
  {
    if refs == [] || judge(refs[0]).verdict != AC then 0 else 1 + Accepted(judge, refs[1..])
  }

  lemma {:induction false} OnlySkips(judge: CaseRef -> CaseResult, refs: seq<CaseRef>, i: nat)
    requires i < |refs|
    ensures StopRun(judge, refs, true)[i] == Skipped(refs[i])
  {
    if i > 0 {
      OnlySkips(judge, refs[1..], i - 1);
    }
  }

  /** The shape of a stop-on-fail report: accepted cases, then at most one failing case, then only
      SKIPPED; up to and including the failure it is the full run. */
  lemma {:induction false} StopShape(judge: CaseRef -> CaseResult, refs: seq<CaseRef>, i: nat)
    requires IsJudge(judge) && i < |refs|
    ensures StopRun(judge, refs, false)[i] ==
            if i <= Accepted(judge, refs) then FullRun(judge, refs)[i] else Skipped(refs[i])
  {
    var failed := judge(refs[0]).verdict != AC;
    if i > 0 {
      if failed {
        OnlySkips(judge, refs[1..], i - 1);
      } else {
        StopShape(judge, refs[1..], i - 1);
      }
    }
  }

  // An SE strictly after the first failure, which a stop-on-fail run never reaches.
  ghost predicate HiddenSE(judge: CaseRef -> CaseResult, refs: seq<CaseRef>) {
    var k := Accepted(judge, refs);
    && k < |refs| && judge(refs[k]).verdict != SE
    && exists i | k < i < |refs| :: judge(refs[i]).verdict == SE
  }

  lemma StopVerdict(judge: CaseRef -> CaseResult, refs: seq<CaseRef>)
    requires IsJudge(judge)
    ensures VerdictOf(StopRun(judge, refs, false)) ==
            if Accepted(judge, refs) == |refs| then AC else judge(refs[Accepted(judge, refs)]).verdict
    ensures Accepted(judge, refs) == |refs| ==> VerdictOf(FullRun(judge, refs)) == AC
    ensures Accepted(judge, refs) < |refs| ==>
              FirstFailure(FullRun(judge, refs)) == judge(refs[Accepted(judge, refs)]).verdict
  {
    var k, stop, full := Accepted(judge, refs), StopRun(judge, refs, false), FullRun(judge, refs);
    forall i | 0 <= i < |refs|
      ensures stop[i] == if i <= k then full[i] else Skipped(refs[i])
    {
      StopShape(judge, refs, i);
    }
    FirstFailureAt(stop, k);
    FirstFailureAt(full, k);
  }

  lemma {:induction false} FirstFailureAt(cs: seq<CaseResult>, k: nat)
    requires k <= |cs| && forall i | 0 <= i < k :: !cs[i].Failed()
    requires k < |cs| ==> cs[k].Failed()
    ensures FirstFailure(cs) == if k < |cs| then cs[k].verdict else AC
  {
    if k > 0 {
      FirstFailureAt(cs[1..], k - 1);
    }
  }

  /** Stop-on-fail gives the verdict of the full run exactly when no SE hides after the first failure. */
  lemma StopVerdictIffNoHiddenSE(judge: CaseRef -> CaseResult, refs: seq<CaseRef>)
    requires IsJudge(judge)
    ensures VerdictOf(StopRun(judge, refs, false)) == VerdictOf(FullRun(judge, refs)) <==> !HiddenSE(judge, refs)
  {
    StopVerdict(judge, refs);
  }

  function PrefixScore(refs: seq<CaseRef>, k: nat): int
    requires k <= |refs|
  {
    if k == 0 then 0 else refs[0].score + PrefixScore(refs[1..], k - 1)
  }

  lemma {:induction false} CreditAtLeast(cs: seq<CaseResult>)
    requires forall c | c in cs :: c.score >= 0
    ensures CreditOf(cs) >= 0
  {
    if cs != [] {
      CreditAtLeast(cs[1..]);
    }
  }

  /** The credit of a stop-on-fail run is that of its accepted prefix, and with the non-negative case
      scores the API accepts it never exceeds the credit of the full run. */
  lemma {:induction false} StopCredit(judge: CaseRef -> CaseResult, refs: seq<CaseRef>)
    requires IsJudge(judge)
    ensures CreditOf(StopRun(judge, refs, false)) == PrefixScore(refs, Accepted(judge, refs))
    ensures (forall c | c in refs :: c.score >= 0) ==>
              CreditOf(StopRun(judge, refs, false)) <= CreditOf(FullRun(judge, refs))
  {
    if refs != [] {
      var full := FullRun(judge, refs);
      assert full[1..] == FullRun(judge, refs[1..]) && full[0] == judge(refs[0]);
      var stop := StopRun(judge, refs, false);
      assert stop[0] == judge(refs[0]) && stop[1..] == StopRun(judge, refs[1..], judge(refs[0]).Failed());
      if judge(refs[0]).verdict == AC {
        StopCredit(judge, refs[1..]);
      } else {
        SkipsEarnNothing(judge, refs[1..]);
        if forall c | c in refs :: c.score >= 0 {
          CreditAtLeast(full);
        }
      }
    }
  }

  lemma {:induction false} SkipsEarnNothing(judge: CaseRef -> CaseResult, refs: seq<CaseRef>)
    ensures CreditOf(StopRun(judge, refs, true)) == 0
  {
    if refs != [] {
      SkipsEarnNothing(judge, refs[1..]);
    }
  }

  ghost predicate Ascending(refs: seq<CaseRef>) {
    forall i, j | 0 <= i < j < |refs| :: refs[i].index < refs[j].index
  }

  /** For the ascending case lists the dispatcher sends, sorting changes nothing: a report in list
      order is the only outcome of the sort inside Aggregate. */
  lemma ReportIsSorted(refs: seq<CaseRef>, cs: seq<CaseResult>, sorted: seq<CaseResult>)
    requires Ascending(refs) && |cs| == |refs| && forall i | 0 <= i < |refs| :: cs[i].index == refs[i].index
    requires IsSortOf(ByIndex, cs, sorted)
    ensures sorted == cs
  {
    DistinctElements(cs);
    SortIsUnique(ByIndex, cs, sorted);
  }

  // Elements with distinct indices are distinguished by index.
  lemma DistinctElements(cs: seq<CaseResult>)
    requires DistinctIndices(cs)
    ensures Distinguishes(ByIndex, multiset(cs))
  {
    forall x | x in cs
      ensures multiset(cs)[x] == 1
    {
      NoRepeatsCounts(cs, x);
    }
  }
}
