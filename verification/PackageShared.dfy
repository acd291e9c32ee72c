/** The shared export of a problem, which carries the public samples only, and importing it again. */
module PackageShared {
  import opened Options
  import opened Ordering
  import opened Package
  import opened PackageMeta
  import opened PackageRoundTrip
  import opened Text

  function SharedArchive(p: Problem, samples: seq<Sample>): seq<Entry> { Archive(Bare(p), SampleFiles(samples)) }

  function SampleCases(samples: seq<Sample>): (cases: seq<Case>)
    ensures |cases| == |samples| && forall i | 0 <= i < |cases| :: cases[i].index == i + 1
  {
    seq(|samples|, i requires 0 <= i < |samples| => Case(i + 1, samples[i].input, Some(samples[i].output)))
  }

  lemma SampleCasesGrow(samples: seq<Sample>)
    requires samples != []
    ensures
      var n := |samples|;
      SampleCases(samples) == SampleCases(samples[..n - 1]) +
                              [Case(n, samples[n - 1].input, Some(samples[n - 1].output))]
  {
  }

  lemma FilesGrow(cases: seq<Case>, c: Case, f: Entry)
    requires c.answer.Some?
    ensures FileOfSome(f, cases + [c]) <==> FileOfSome(f, cases) || f == InFile(c) || f == OutFile(c)
  {
    if FileOfSome(f, cases) {
      var d :| d in cases && (f == InFile(d) || (d.answer.Some? && f == OutFile(d)));
      assert d in cases + [c];
    }
    assert c in cases + [c];
  }

  lemma SameName(m: nat, n: nat, ext: string)
    ensures Dec(m) + ext == Dec(n) + ext ==> m == n
  {
    if Dec(m) + ext == Dec(n) + ext {
      assert Dec(m) == (Dec(m) + ext)[..|Dec(m)|] && Dec(n) == (Dec(n) + ext)[..|Dec(n)|];
      DecInjective(m, n);
    }
  }

  lemma InIsNotOut(m: nat, n: nat)
    ensures Dec(m) + ".in" != Dec(n) + ".out"
  {
    var a, b := Dec(m) + ".in", Dec(n) + ".out";
    assert a[|a| - 1] == 'n' && b[|b| - 1] == 't';
  }

  lemma NewNames(cases: seq<Case>, c: Case, f: Entry)
    requires c.answer.Some? && FileOfSome(f, cases) && forall d | d in cases :: d.index != c.index
    ensures f != InFile(c) && f != OutFile(c)
  {
    var d :| d in cases && (f == InFile(d) || (d.answer.Some? && f == OutFile(d)));
    SameName(d.index, c.index, ".in");
    SameName(d.index, c.index, ".out");
    InIsNotOut(d.index, c.index);
    InIsNotOut(c.index, d.index);
  }

  lemma TwoMore(files: seq<Entry>, x: Entry, y: Entry)
    requires NoRepeats(files) && x !in files && y !in files && x != y
    ensures NoRepeats(files + [x, y])
  {
    assert forall i | 0 <= i < |files| :: files[i] in files;
  }

  lemma {:induction false} SampleListing(samples: seq<Sample>)
    ensures ListsTestdata(SampleFiles(samples), SampleCases(samples))
  {
    if samples != [] {
      var n := |samples|;
      var files, cases := SampleFiles(samples[..n - 1]), SampleCases(samples[..n - 1]);
      var c := Case(n, samples[n - 1].input, Some(samples[n - 1].output));
      SampleListing(samples[..n - 1]);
      SampleCasesGrow(samples);
      forall f
        ensures f in SampleFiles(samples) <==> FileOfSome(f, SampleCases(samples))
      {
        FilesGrow(cases, c, f);
      }
      forall f | f in files
        ensures f != InFile(c) && f != OutFile(c)
      {
        assert FileOfSome(f, cases);
        NewNames(cases, c, f);
      }
      InIsNotOut(n, n);
      TwoMore(files, InFile(c), OutFile(c));
    }
  }

  lemma AllAnswered(samples: seq<Sample>)
    ensures Renumbered(Answered(SampleCases(samples))) == SampleCases(samples)
  {
    AnsweredAll(SampleCases(samples));
  }

  lemma {:induction false} AnsweredAll(cases: seq<Case>)
    requires forall c | c in cases :: c.answer.Some?
    ensures Answered(cases) == cases
  {
    if cases != [] {
      var init, last := cases[..|cases| - 1], cases[|cases| - 1];
      AnsweredAll(init);
      assert cases == init + [last] && last in cases;
    }
  }

  /** Importing a shared archive: the judge sources are gone and the samples are the test data.  The
      statement comes back exactly when it is at most 4 MiB.  With a meta.txt of at most 1 MiB the mode
      always comes back, and title and limits under the conditions of a full export; with a larger one
      only the defaults do. */
  lemma SharedRoundTrip(millis: string -> int, zipBytes: nat, p: Problem, samples: seq<Sample>, r: Imported)
    requires Stored(p) && |samples| <= MAX_INT
    requires ImportsTo(millis, zipBytes, SharedArchive(p, samples), Created(r))
    ensures r.statement == p.statement <==> Bytes(p.statement) <= STATEMENT_LIMIT
    ensures r.checker == "" && r.interactor == ""
    ensures r.title == p.title <==>
            if MetaFits(p) then CleanTitle(p.title) && p.title != "" else p.title == DEFAULT_TITLE
    ensures r.timeMS == p.timeMS <==> if MetaFits(p) then 50 <= p.timeMS <= 600_000 else p.timeMS == 1000
    ensures r.memMB == p.memMB <==> if MetaFits(p) then 16 <= p.memMB <= 8192 else p.memMB == 256
    ensures r.mode == p.mode <==> MetaFits(p) || p.mode == MODE_DEFAULT
    ensures r.cases == SampleCases(samples)
  {
    SampleListing(samples);
    AllAnswered(samples);
    RoundTrip(millis, zipBytes, Bare(p), SampleCases(samples), SampleFiles(samples), r);
  }

  /** It is refused exactly when it is larger than 128 MiB, there is no sample, or a sample is larger
      than 256 MiB. */
  lemma SharedRefusedIff(millis: string -> int, zipBytes: nat, p: Problem, samples: seq<Sample>, r: Answer)
    requires ImportsTo(millis, zipBytes, SharedArchive(p, samples), r)
    ensures r.Refused? <==>
            || zipBytes > ZIP_LIMIT || samples == []
            || exists s | s in samples :: Bytes(s.input) > CASE_LIMIT || Bytes(s.output) > CASE_LIMIT
  {
    SampleListing(samples);
    RefusedIff(millis, zipBytes, Bare(p), SampleCases(samples), SampleFiles(samples), r);
    var cases := SampleCases(samples);
    forall i | 0 <= i < |samples|
      ensures cases[i] in cases && samples[i] in samples
      ensures Readable(cases[i]) <==> Bytes(samples[i].input) <= CASE_LIMIT && Bytes(samples[i].output) <= CASE_LIMIT
    {
    }
  }
}
