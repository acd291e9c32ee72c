/** Exporting a problem and importing the archive again. */
module PackageRoundTrip {
  import opened NaturalOrder
  import opened Options
  import opened Ordering
  import opened Package
  import opened PackageMeta
  import opened Text
  import FlatYaml

  // ---------------------------------------------------------------- the files of a problem

  function InFile(c: Case): Entry { Entry(Dec(c.index) + ".in", c.input) }

  function OutFile(c: Case): Entry
    requires c.answer.Some?
  {
    Entry(Dec(c.index) + ".out", c.answer.value)
  }

  predicate Ascending(cases: seq<Case>) { forall i, j | 0 <= i < j < |cases| :: cases[i].index < cases[j].index }

  // The data directory holds exactly the files of the cases, listed in any order.
  ghost predicate ListsTestdata(files: seq<Entry>, cases: seq<Case>) {
    && NoRepeats(files)
    && forall f :: f in files <==>
         exists c :: c in cases && (f == InFile(c) || (c.answer.Some? && f == OutFile(c)))
  }

  function Stem(n: nat): string { "testdata/" + Dec(n) }

  function InEntry(c: Case): Entry { Entry(Stem(c.index) + ".in", c.input) }

  function OutEntry(c: Case): Entry
    requires c.answer.Some?
  {
    Entry(Stem(c.index) + ".out", c.answer.value)
  }

  function Archive(p: Problem, files: seq<Entry>): seq<Entry> { HeadEntries(p) + DataEntries(files) }

  // ---------------------------------------------------------------- names

  predicate Plain(s: string) { forall c | c in s :: !('A' <= c <= 'Z') && c != '_' }

  lemma LowerPlain(s: string)
    requires Plain(s)
    ensures Lower(s) == s
  {
    assert forall i | 0 <= i < |s| :: s[i] in s;
  }

  lemma PlainIsKept(s: string, content: string)
    requires Plain(s) && !HasSuffix(s, "/")
    ensures !Skipped(Entry(s, content))
  {
    forall i | 0 <= i <= |s|
      ensures !HasPrefix(s[i..], "__MACOSX")
    {
      assert i < |s| ==> s[i] in s;
    }
  }

  lemma StemChars(n: nat)
    ensures Plain(Stem(n)) && Stem(n)[0] == 't'
  {
  }

  lemma {:induction false} LastSlashAt(head: string, tail: string)
    requires head != "" && head[|head| - 1] == '/' && '/' !in tail
    ensures LastSlash(head + tail) == |head|
  {
    if tail == "" {
    } else {
      var n := |tail| - 1;
      assert (head + tail)[..|head| + n] == head + tail[..n];
      LastSlashAt(head, tail[..n]);
    }
  }

  lemma StemSplits(n: nat)
    ensures Dir(Stem(n)) == "testdata" && Base(Stem(n)) == Dec(n)
  {
    LastSlashAt("testdata/", Dec(n));
  }

  // ---------------------------------------------------------------- the walk over the archive

  // A name that begins and ends like those of test data is neither text nor source.
  lemma DataName(s: string, acc: Scan, content: string)
    requires Plain(s) && s != "" && s[0] == 't' && (s[|s| - 1] == 'n' || s[|s| - 1] == 't')
    ensures Lower(s) == s && !Skipped(Entry(s, content))
    ensures ScanSource(ScanText(acc, Entry(s, content)), Entry(s, content)) == acc
  {
    LowerPlain(s);
    PlainIsKept(s, content);
    NoSourceOf(s);
  }

  lemma DataStep(acc: Scan, n: nat, ext: string, content: string)
    requires ext == ".in" || ext == ".out"
    ensures
      var e := Entry(Stem(n) + ext, content);
      ScanStep(acc, e) == if ext == ".in" then acc.(ins := acc.ins + [e]) else acc
  {
    var name := Stem(n) + ext;
    StemChars(n);
    DataName(name, acc, content);
    if ext == ".out" {
    } else {
      TrimSuffixOf(Stem(n), ".in");
    }
  }

  lemma StatementName()
    ensures var s := "statement.md"; Plain(s) && s[|s| - 1] == 'd' && HasSuffix(s, ".md")
  {
  }

  lemma StatementStep(acc: Scan, content: string)
    ensures ScanStep(acc, Entry("statement.md", content)) == acc.(statements := acc.statements + ["statement.md"])
  {
    var name := "statement.md";
    StatementName();
    LowerPlain(name);
    PlainIsKept(name, content);
    NoSourceOf(name);
  }

  lemma MetaStep(acc: Scan, content: string)
    ensures ScanStep(acc, Entry("meta.txt", content)) ==
            if Bytes(content) <= META_LIMIT then acc.(own := true, meta := FlatYaml.KV(content)) else acc
  {
    var name := "meta.txt";
    assert Plain(name) && name[|name| - 1] == 't';
    LowerPlain(name);
    PlainIsKept(name, content);
    NoSourceOf(name);
  }

  predicate JudgeWord(word: string) { word == "checker" || word == "interactor" }

  lemma CppKind(word: string)
    requires JudgeWord(word)
    ensures SourceKind(word + ".cpp") == if word == "checker" then Checker else Interactor
  {
    var name := word + ".cpp";
    assert name[..|word|] == word && name[|word|..] == ".cpp" && name[0] == word[0];
    assert '/' !in ".cpp" && HasSuffix(".cpp", ".cpp");
    if word == "interactor" {
      OtherPrefix(name, "checker");
      OtherPrefix(name, "validator");
      OtherPrefix(name, "spj");
    }
  }

  lemma CppName(word: string, content: string)
    requires JudgeWord(word)
    ensures
      var name := word + ".cpp";
      && Lower(name) == name && !Skipped(Entry(name, content)) && Bytes(name) < 200
      && name != "meta.txt" && name != "/meta.txt" && name != "problem.yaml"
      && !HasSuffix(name, ".md") && !HasSuffix(name, ".tex") && !HasSuffix(name, ".in")
  {
    var name := word + ".cpp";
    assert Plain(word) && Plain(".cpp") && name[|name| - 1] == 'p';
    LowerPlain(name);
    PlainIsKept(name, content);
    BytesBounds(name);
  }

  // A judge source is stored, if it is within the limit, and nothing else.
  lemma CppStep(acc: Scan, word: string, content: string)
    requires JudgeWord(word)
    ensures
      ScanStep(acc, Entry(word + ".cpp", content)) ==
      if Bytes(content) > SOURCE_LIMIT then acc
      else if word == "interactor" then acc.(interactor := content)
      else if acc.checker == "" then acc.(checker := content) else acc
  {
    CppName(word, content);
    CppKind(word);
    assert ScanText(acc, Entry(word + ".cpp", content)) == acc;
  }

  lemma ScanSnoc(entries: seq<Entry>, e: Entry)
    ensures ScanAll(entries + [e]) == ScanStep(ScanAll(entries), e)
  {
  }

  lemma OptionalEntry(entries: seq<Entry>, present: bool, e: Entry)
    ensures ScanAll(entries + if present then [e] else []) ==
            if present then ScanStep(ScanAll(entries), e) else ScanAll(entries)
  {
    if present {
    } else {
      assert entries + [] == entries;
    }
  }

  lemma TextScan(statement: string, meta: string)
    ensures ScanAll([Entry("statement.md", statement), Entry("meta.txt", meta)]) ==
            if Bytes(meta) <= META_LIMIT
            then NOTHING.(own := true, meta := FlatYaml.KV(meta), statements := ["statement.md"])
            else NOTHING.(statements := ["statement.md"])
  {
    var a := Entry("statement.md", statement);
    ScanSnoc([], a);
    StatementStep(NOTHING, statement);
    MetaStep(ScanAll([a]), meta);
  }

  lemma SourceNames(content: string)
    ensures Entry("checker" + ".cpp", content) == Entry("checker.cpp", content)
    ensures Entry("interactor" + ".cpp", content) == Entry("interactor.cpp", content)
  {
  }

  // The importer reads meta.txt.
  predicate MetaFits(p: Problem) { Bytes(MetaText(p)) <= META_LIMIT }

  function MetaSeen(p: Problem): map<string, string> { if MetaFits(p) then FlatYaml.KV(MetaText(p)) else map[] }

  // A judge source as it arrives.
  function SourceSeen(text: string): string { if Bytes(text) <= SOURCE_LIMIT then text else "" }

  // What the entries before the test data amount to.
  lemma HeadScan(p: Problem)
    ensures ScanAll(HeadEntries(p)) ==
            Scan(MetaFits(p), MetaSeen(p), "", ["statement.md"], [],
                 SourceSeen(p.checker), SourceSeen(p.interactor), [])
  {
    var meta := MetaText(p);
    TextScan(p.statement, meta);
    var s := [Entry("statement.md", p.statement), Entry("meta.txt", meta)];
    var c, i := Entry("checker.cpp", p.checker), Entry("interactor.cpp", p.interactor);
    SourceNames(p.checker);
    var s1 := s + if p.checker != "" then [c] else [];
    OptionalEntry(s, p.checker != "", c);
    CppStep(ScanAll(s), "checker", p.checker);
    OptionalEntry(s1, p.interactor != "", i);
    CppStep(ScanAll(s1), "interactor", p.interactor);
  }

  predicate IsIn(f: Entry) { HasSuffix(f.name, ".in") }

  // The input entries, in archive order.
  function Ins(files: seq<Entry>): seq<Entry> {
    if files == [] then []
    else
      var rest, last := Ins(files[..|files| - 1]), files[|files| - 1];
      if IsIn(last) then rest + [DataEntry(last)] else rest
  }

  // The files of a case are told apart by their extension.
  lemma FileKinds(c: Case)
    ensures IsIn(InFile(c))
    ensures c.answer.Some? ==> !IsIn(OutFile(c))
    ensures DataEntry(InFile(c)) == InEntry(c)
    ensures c.answer.Some? ==> DataEntry(OutFile(c)) == OutEntry(c)
  {
    OtherSuffix(Dec(c.index) + ".out", ".in");
    assert "testdata/" + (Dec(c.index) + ".in") == Stem(c.index) + ".in";
  }

  ghost predicate FileOfSome(f: Entry, cases: seq<Case>) {
    exists c :: c in cases && (f == InFile(c) || (c.answer.Some? && f == OutFile(c)))
  }

  lemma DataFileStep(acc: Scan, f: Entry, cases: seq<Case>)
    requires FileOfSome(f, cases)
    ensures
      var e := DataEntry(f);
      ScanStep(acc, e) == if IsIn(f) then acc.(ins := acc.ins + [e]) else acc
  {
    var c :| c in cases && (f == InFile(c) || (c.answer.Some? && f == OutFile(c)));
    FileKinds(c);
    DataStep(acc, c.index, if IsIn(f) then ".in" else ".out", f.content);
  }

  lemma DataEntriesStep(head: seq<Entry>, files: seq<Entry>, f: Entry)
    ensures head + DataEntries(files + [f]) == (head + DataEntries(files)) + [DataEntry(f)]
    ensures Ins(files + [f]) == Ins(files) + if IsIn(f) then [DataEntry(f)] else []
  {
  }

  lemma {:induction false} DataScan(head: seq<Entry>, files: seq<Entry>, cases: seq<Case>)
    requires forall f | f in files :: FileOfSome(f, cases)
    ensures ScanAll(head + DataEntries(files)) == ScanAll(head).(ins := ScanAll(head).ins + Ins(files))
  {
    if files == [] {
      assert head + DataEntries(files) == head && ScanAll(head).ins + [] == ScanAll(head).ins;
    } else {
      var n := |files| - 1;
      var f := files[n];
      assert files == files[..n] + [f] && f in files;
      DataScan(head, files[..n], cases);
      DataEntriesStep(head, files[..n], f);
      DataFileStep(ScanAll(head + DataEntries(files[..n])), f, cases);
    }
  }

  // ---------------------------------------------------------------- which entry answers which case

  lemma NoAnswerEnding(s: string)
    requires s != "" && (s[|s| - 1] == 'd' || s[|s| - 1] == 'p' || s[|s| - 1] == 'n') && Plain(s)
    ensures forall content, name :: !Answers(Entry(s, content), name)
  {
    LowerPlain(s);
  }

  lemma MetaAnswersNothing()
    ensures forall content, name :: !Answers(Entry("meta.txt", content), name)
  {
    var s := "meta.txt";
    LowerPlain(s);
  }

  lemma StatementAnswersNothing()
    ensures forall content, name :: !Answers(Entry("statement.md", content), name)
  {
    NoAnswerEnding("statement.md");
  }

  lemma SourcesAnswerNothing()
    ensures forall content, name :: !Answers(Entry("checker.cpp", content), name)
    ensures forall content, name :: !Answers(Entry("interactor.cpp", content), name)
  {
    var a, b := "checker.cpp", "interactor.cpp";
    NoAnswerEnding(a);
    NoAnswerEnding(b);
  }

  lemma HeadAnswersNothing(p: Problem, e: Entry, name: string)
    requires e in HeadEntries(p)
    ensures !Answers(e, name)
  {
    MetaAnswersNothing();
    StatementAnswersNothing();
    SourcesAnswerNothing();
  }

  lemma InAnswersNothing(c: Case, name: string)
    ensures !Answers(InEntry(c), name)
  {
    var s := InEntry(c).name;
    StemChars(c.index);
    NoAnswerEnding(s);
  }

  lemma StemInjective(m: nat, n: nat)
    requires Stem(m) == Stem(n)
    ensures m == n
  {
    assert Dec(m) == Stem(m)[9..] && Dec(n) == Stem(n)[9..];
    DecInjective(m, n);
  }

  lemma OutAnswersOwn(c: Case, n: nat)
    requires c.answer.Some?
    ensures Answers(OutEntry(c), Stem(n)) <==> c.index == n
  {
    var s := OutEntry(c).name;
    StemChars(c.index);
    StemChars(n);
    assert Plain(".out") && s[|s| - 1] == 't';
    LowerPlain(s);
    LowerPlain(Stem(n));
    LowerPlain(Stem(c.index));
    OtherSuffix(s, ".ans");
    if Stem(c.index) == Stem(n) {
      StemInjective(c.index, n);
    }
  }

  lemma {:induction false} OnlyAnswer(entries: seq<Entry>, name: string, e: Entry)
    requires e in entries && Answers(e, name) && forall x | x in entries && Answers(x, name) :: x == e
    ensures AnswerIn(entries, name) == Some(e)
  {
    var n := |entries| - 1;
    if !Answers(entries[n], name) {
      OnlyAnswer(entries[..n], name, e);
    } else {
      assert entries[n] in entries;
    }
  }

  lemma {:induction false} NoAnswer(entries: seq<Entry>, name: string)
    requires forall x | x in entries :: !Answers(x, name)
    ensures AnswerIn(entries, name) == None
  {
    if entries != [] {
      NoAnswer(entries[..|entries| - 1], name);
    }
  }

  // The entries of the archive, seen as candidates for the answer of case n.
  lemma CandidateAnswers(p: Problem, files: seq<Entry>, cases: seq<Case>, x: Entry, n: nat)
    requires ListsTestdata(files, cases) && x in Archive(p, files) && Answers(x, Stem(n))
    ensures exists c :: c in cases && c.index == n && c.answer.Some? && x == OutEntry(c)
  {
    if x in HeadEntries(p) {
      HeadAnswersNothing(p, x, Stem(n));
    } else {
      var i :| 0 <= i < |files| && x == DataEntry(files[i]);
      assert files[i] in files;
      var c :| c in cases && (files[i] == InFile(c) || (c.answer.Some? && files[i] == OutFile(c)));
      FileKinds(c);
      if files[i] == InFile(c) {
        InAnswersNothing(c, Stem(n));
      } else {
        OutAnswersOwn(c, n);
      }
    }
  }

  lemma OutEntryIsThere(p: Problem, files: seq<Entry>, cases: seq<Case>, c: Case)
    requires ListsTestdata(files, cases) && c in cases && c.answer.Some?
    ensures OutEntry(c) in Archive(p, files)
  {
    FileKinds(c);
    assert OutFile(c) in files;
    var i :| 0 <= i < |files| && files[i] == OutFile(c);
    assert DataEntries(files)[i] == OutEntry(c);
  }

  lemma OnlyOwnAnswers(p: Problem, files: seq<Entry>, cases: seq<Case>, c: Case, x: Entry)
    requires ListsTestdata(files, cases) && Ascending(cases) && c in cases
    requires x in Archive(p, files) && Answers(x, Stem(c.index))
    ensures c.answer.Some? && x == OutEntry(c)
  {
    CandidateAnswers(p, files, cases, x, c.index);
  }

  lemma CaseAnswer(p: Problem, files: seq<Entry>, cases: seq<Case>, c: Case)
    requires ListsTestdata(files, cases) && Ascending(cases) && c in cases
    ensures AnswerIn(Archive(p, files), Stem(c.index)) == if c.answer.Some? then Some(OutEntry(c)) else None
  {
    var entries := Archive(p, files);
    forall x | x in entries && Answers(x, Stem(c.index))
      ensures c.answer.Some? && x == OutEntry(c)
    {
      OnlyOwnAnswers(p, files, cases, c, x);
    }
    if c.answer.Some? {
      OutEntryIsThere(p, files, cases, c);
      OutAnswersOwn(c, c.index);
      OnlyAnswer(entries, Stem(c.index), OutEntry(c));
    } else {
      NoAnswer(entries, Stem(c.index));
    }
  }

  // ---------------------------------------------------------------- the pairs

  function KeyOf(c: Case): CaseKey
    requires c.answer.Some?
  {
    CaseKey("testdata", Dec(c.index), c.input, c.answer.value)
  }

  // Every case's own answer is what the archive answers it with.
  ghost predicate AnswersKnown(entries: seq<Entry>, cases: seq<Case>) {
    forall c | c in cases :: AnswerIn(entries, Stem(c.index)) == if c.answer.Some? then Some(OutEntry(c)) else None
  }

  // One input entry and its pair, if the case is answered.
  lemma PairedStep(entries: seq<Entry>, cases: seq<Case>, ins: seq<Entry>, c: Case)
    requires AnswersKnown(entries, cases) && c in cases
    ensures Paired(entries, ins + [InEntry(c)]) == Paired(entries, ins) + if c.answer.Some? then [KeyOf(c)] else []
  {
    StemSplits(c.index);
  }

  ghost predicate IsKeyOf(k: CaseKey, cases: seq<Case>, files: seq<Entry>) {
    exists c :: c in cases && c.answer.Some? && InFile(c) in files && k == KeyOf(c)
  }

  // What one file more does to the pairs.
  lemma FileStep(entries: seq<Entry>, cases: seq<Case>, some: seq<Entry>, f: Entry) returns (c: Case)
    requires AnswersKnown(entries, cases) && FileOfSome(f, cases)
    ensures c in cases && (f == InFile(c) || (c.answer.Some? && f == OutFile(c))) && (f == InFile(c) <==> IsIn(f))
    ensures Paired(entries, Ins(some + [f])) ==
            Paired(entries, Ins(some)) + if f == InFile(c) && c.answer.Some? then [KeyOf(c)] else []
  {
    c :| c in cases && (f == InFile(c) || (c.answer.Some? && f == OutFile(c)));
    FileKinds(c);
    if f == InFile(c) {
      PairedStep(entries, cases, Ins(some), c);
    } else {
      assert Paired(entries, Ins(some)) + [] == Paired(entries, Ins(some));
    }
  }

  lemma {:induction false} PairsAre(entries: seq<Entry>, cases: seq<Case>, some: seq<Entry>, k: CaseKey)
    requires AnswersKnown(entries, cases) && Ascending(cases) && forall f | f in some :: FileOfSome(f, cases)
    ensures k in Paired(entries, Ins(some)) <==> IsKeyOf(k, cases, some)
  {
    if some != [] {
      var n := |some| - 1;
      var f := some[n];
      assert some == some[..n] + [f];
      PairsAre(entries, cases, some[..n], k);
      var c := FileStep(entries, cases, some[..n], f);
      KeyOneMore(cases, some[..n], f, c, k);
    }
  }

  lemma KeyOneMore(cases: seq<Case>, some: seq<Entry>, f: Entry, c: Case, k: CaseKey)
    requires Ascending(cases) && c in cases && (f == InFile(c) || !IsIn(f))
    ensures IsKeyOf(k, cases, some + [f]) <==>
            IsKeyOf(k, cases, some) || (f == InFile(c) && c.answer.Some? && k == KeyOf(c))
  {
    InFileTells(cases, c);
  }

  // An input file belongs to one case.
  lemma InFileTells(cases: seq<Case>, c: Case)
    requires Ascending(cases) && c in cases
    ensures forall d | d in cases && InFile(d) == InFile(c) :: d == c
  {
    forall d | d in cases && InFile(d) == InFile(c)
      ensures d == c
    {
      TrimSuffixOf(Dec(c.index), ".in");
      DecInjective(c.index, d.index);
    }
  }

  lemma {:induction false} PairsDistinct(entries: seq<Entry>, cases: seq<Case>, some: seq<Entry>)
    requires AnswersKnown(entries, cases) && Ascending(cases) && NoRepeats(some)
    requires forall f | f in some :: FileOfSome(f, cases)
    ensures NoRepeats(Paired(entries, Ins(some)))
  {
    if some != [] {
      var n := |some| - 1;
      var f := some[n];
      assert some == some[..n] + [f];
      PairsDistinct(entries, cases, some[..n]);
      var c := FileStep(entries, cases, some[..n], f);
      if f == InFile(c) && c.answer.Some? {
        assert f !in some[..n];
        PairsAre(entries, cases, some[..n], KeyOf(c));
      }
    }
  }

  // ---------------------------------------------------------------- the order of the cases

  lemma {:induction false} DigitRunAll(s: string)
    requires AllDigits(s)
    ensures DigitRun(s) == |s|
  {
  }

  /** A printed number is its own natural key. */
  lemma DecKey(n: nat)
    requires n <= MAX_INT
    ensures NaturalKey(Dec(n)) == [n]
  {
    var s := Dec(n);
    ValueOfDec(n);
    DigitRunAll(s);
    assert s[0] in s && s[0..] == s && s[0..|s|] == s;
  }

  lemma KeyOrder(c: Case, d: Case)
    requires c.answer.Some? && d.answer.Some? && c.index <= MAX_INT && d.index <= MAX_INT
    ensures CaseBefore(KeyOf(c), KeyOf(d)) <==> c.index < d.index
  {
    DecKey(c.index);
    DecKey(d.index);
    LexHeads([c.index], [d.index]);
  }

  // The cases that have an answer, in order.
  function Answered(cases: seq<Case>): (kept: seq<Case>)
    ensures forall c :: c in kept <==> c in cases && c.answer.Some?
  {
    if cases == [] then []
    else
      var rest, last := Answered(cases[..|cases| - 1]), cases[|cases| - 1];
      assert cases == cases[..|cases| - 1] + [last];
      if last.answer.Some? then rest + [last] else rest
  }

  lemma {:induction false} AnsweredAscending(cases: seq<Case>)
    requires Ascending(cases)
    ensures Ascending(Answered(cases))
  {
    if cases != [] {
      var n := |cases| - 1;
      AnsweredAscending(cases[..n]);
    }
  }

  ghost predicate Sortable(cases: seq<Case>) {
    Ascending(cases) && forall c | c in cases :: c.answer.Some? && c.index <= MAX_INT
  }

  function Keys(cases: seq<Case>): seq<CaseKey>
    requires forall c | c in cases :: c.answer.Some?
  {
    seq(|cases|, i requires 0 <= i < |cases| => KeyOf(cases[i]))
  }

  lemma KeysInOrder(cases: seq<Case>)
    requires Sortable(cases)
    ensures Sorted(CaseBefore, Keys(cases)) && NoRepeats(Keys(cases))
  {
    forall i, j | 0 <= i < j < |cases|
      ensures !CaseBefore(Keys(cases)[j], Keys(cases)[i]) && Keys(cases)[i] != Keys(cases)[j]
    {
      KeyOrder(cases[j], cases[i]);
      KeyOrder(cases[i], cases[j]);
    }
  }

  lemma KeysComparable(cases: seq<Case>, i: nat, j: nat)
    requires Sortable(cases) && i < |cases| && j < |cases| && Keys(cases)[i] != Keys(cases)[j]
    ensures !Incomparable(CaseBefore, Keys(cases)[i], Keys(cases)[j])
  {
    KeyOrder(cases[i], cases[j]);
    KeyOrder(cases[j], cases[i]);
  }

  lemma KeysDistinguished(cases: seq<Case>)
    requires Sortable(cases)
    ensures Distinguishes(CaseBefore, multiset(Keys(cases)))
  {
    KeysInOrder(cases);
    var keys := Keys(cases);
    forall x | x in multiset(keys)
      ensures multiset(keys)[x] == 1
    {
      NoRepeatsCounts(keys, x);
    }
    forall x, y | x in keys && y in keys && x != y
      ensures !Incomparable(CaseBefore, x, y)
    {
      var i :| 0 <= i < |keys| && keys[i] == x;
      var j :| 0 <= j < |keys| && keys[j] == y;
      KeysComparable(cases, i, j);
    }
  }

  // What the archive's walk and pairing find.
  lemma ArchivePairs(p: Problem, cases: seq<Case>, files: seq<Entry>)
    requires Ascending(cases) && ListsTestdata(files, cases)
    ensures
      var found := Paired(Archive(p, files), ScanAll(Archive(p, files)).ins);
      NoRepeats(found) && forall k :: k in found <==> k in Keys(Answered(cases))
  {
    var entries := Archive(p, files);
    HeadScan(p);
    DataScan(HeadEntries(p), files, cases);
    assert [] + Ins(files) == Ins(files);
    forall c | c in cases
      ensures AnswerIn(entries, Stem(c.index)) == if c.answer.Some? then Some(OutEntry(c)) else None
    {
      CaseAnswer(p, files, cases, c);
    }
    PairsDistinct(entries, cases, files);
    forall k
      ensures k in Paired(entries, Ins(files)) <==> k in Keys(Answered(cases))
    {
      PairsAre(entries, cases, files, k);
      KeyMembers(cases, files, k);
    }
  }

  lemma KeyMembers(cases: seq<Case>, files: seq<Entry>, k: CaseKey)
    requires ListsTestdata(files, cases)
    ensures IsKeyOf(k, cases, files) <==> k in Keys(Answered(cases))
  {
    var kept := Answered(cases);
    if IsKeyOf(k, cases, files) {
      var c :| c in cases && c.answer.Some? && InFile(c) in files && k == KeyOf(c);
      var i :| 0 <= i < |kept| && kept[i] == c;
      assert Keys(kept)[i] == k;
    }
  }

  /** However the directory was listed and whatever the sort does with it, the pairs come out as the
      answered cases in the order of their numbers. */
  lemma SortedPairs(p: Problem, cases: seq<Case>, files: seq<Entry>, sorted: seq<CaseKey>)
    requires Ascending(cases) && ListsTestdata(files, cases) && forall c | c in cases :: c.index <= MAX_INT
    requires IsSortOf(CaseBefore, Paired(Archive(p, files), ScanAll(Archive(p, files)).ins), sorted)
    ensures sorted == Keys(Answered(cases))
  {
    var want := Answered(cases);
    AnsweredAscending(cases);
    ArchivePairs(p, cases, files);
    KeysInOrder(want);
    SameMultiset(Paired(Archive(p, files), ScanAll(Archive(p, files)).ins), Keys(want));
    KeysDistinguished(want);
    SortIsUnique(CaseBefore, Keys(want), sorted);
  }

  // The answered cases, numbered from 1.
  function Renumbered(cases: seq<Case>): seq<Case> {
    seq(|cases|, i requires 0 <= i < |cases| => cases[i].(index := i + 1))
  }

  // ---------------------------------------------------------------- the round trip

  // The problem with its judge sources as they arrive.
  function Seen(p: Problem): Problem {
    p.(checker := SourceSeen(p.checker), interactor := SourceSeen(p.interactor))
  }

  lemma StatementSeen(p: Problem, files: seq<Entry>, s: Scan)
    requires s.statements == ["statement.md"]
    ensures StatementOf(Archive(p, files), s) ==
            if Bytes(p.statement) <= STATEMENT_LIMIT then p.statement else OwnValue(s, "statement")
  {
    assert Archive(p, files)[0] == Entry("statement.md", p.statement);
  }

  lemma SettingsBack(millis: string -> int, p: Problem, files: seq<Entry>, cases: seq<Case>, stored: seq<Case>)
    requires forall f | f in files :: FileOfSome(f, cases)
    ensures
      var r, meta := Settings(millis, Archive(p, files), ScanAll(Archive(p, files)), stored), MetaSeen(p);
      && r.cases == stored && r.checker == SourceSeen(p.checker) && r.interactor == SourceSeen(p.interactor)
      && r.statement == (if Bytes(p.statement) <= STATEMENT_LIMIT then p.statement else FlatYaml.Get(meta, "statement"))
      && r.title == TitleOf(FlatYaml.Get(meta, "title"))
      && r.timeMS == Clamp(FlatYaml.IntOr(FlatYaml.Get(meta, "time_limit_ms"), 1000), 50, 600_000)
      && r.memMB == Clamp(FlatYaml.IntOr(FlatYaml.Get(meta, "mem_limit_mb"), 256), 16, 8192)
      && r.mode == ModeOf(FlatYaml.Get(meta, "judge_mode"), r.checker, r.interactor)
  {
    HeadScan(p);
    DataScan(HeadEntries(p), files, cases);
    StatementSeen(p, files, ScanAll(Archive(p, files)));
  }

  // An oversized statement does not come back by way of meta.txt either.
  lemma StatementBack(p: Problem)
    ensures Bytes(p.statement) > STATEMENT_LIMIT ==> FlatYaml.Get(MetaSeen(p), "statement") != p.statement
  {
    FlatYaml.ValueIsSmall(MetaText(p), "statement");
  }

  lemma TitleBack(p: Problem)
    requires Stored(p) && MetaFits(p)
    ensures TitleOf(FlatYaml.Get(FlatYaml.KV(MetaText(p)), "title")) == p.title <==>
            CleanTitle(p.title) && p.title != ""
  {
    TitleIff(p);
    var read := FlatYaml.Get(FlatYaml.KV(MetaText(p)), "title");
    if TrimSpace(read) == "" && p.title == DEFAULT_TITLE {
      DefaultTitleIsClean();
    }
  }

  lemma DefaultTitleIsClean()
    ensures CleanTitle(DEFAULT_TITLE) && TrimSpace(DEFAULT_TITLE) != ""
  {
  }

  // Title, limits and mode as far as meta.txt decides them.
  lemma MetaBack(p: Problem)
    requires Stored(p)
    ensures
      var meta := MetaSeen(p);
      && (TitleOf(FlatYaml.Get(meta, "title")) == p.title <==>
          if MetaFits(p) then CleanTitle(p.title) && p.title != "" else p.title == DEFAULT_TITLE)
      && (Clamp(FlatYaml.IntOr(FlatYaml.Get(meta, "time_limit_ms"), 1000), 50, 600_000) == p.timeMS <==>
          if MetaFits(p) then 50 <= p.timeMS <= 600_000 else p.timeMS == 1000)
      && (Clamp(FlatYaml.IntOr(FlatYaml.Get(meta, "mem_limit_mb"), 256), 16, 8192) == p.memMB <==>
          if MetaFits(p) then 16 <= p.memMB <= 8192 else p.memMB == 256)
      && (ModeOf(FlatYaml.Get(meta, "judge_mode"), SourceSeen(p.checker), SourceSeen(p.interactor)) == p.mode <==>
          if MetaFits(p) then ModeMatchesSources(Seen(p))
          else p.mode == ModeOf("", SourceSeen(p.checker), SourceSeen(p.interactor)))
  {
    if MetaFits(p) {
      MetaValues(p);
      TitleBack(p);
      LimitIff(p.timeMS, 1000, 50, 600_000);
      LimitIff(p.memMB, 256, 16, 8192);
      ModeIff(Seen(p));
    } else {
      NoNumber();
    }
  }

  /** Exporting a problem and importing the archive: the statement comes back exactly when it is at most
      4 MiB and each judge source exactly when it is at most 512 KiB.  With a meta.txt of at most 1 MiB
      the title comes back exactly when it is clean and not empty, the limits exactly when they lie
      inside the importer's clamps, and the mode exactly when it matches the sources that arrive; with
      a larger one only the defaults do.  The answered cases come back in the order of their numbers,
      renumbered from 1. */
  lemma RoundTrip(millis: string -> int, zipBytes: nat, p: Problem, cases: seq<Case>, files: seq<Entry>, r: Imported)
    requires Stored(p) && Ascending(cases) && ListsTestdata(files, cases) && forall c | c in cases :: c.index <= MAX_INT
    requires ImportsTo(millis, zipBytes, Archive(p, files), Created(r))
    ensures r.statement == p.statement <==> Bytes(p.statement) <= STATEMENT_LIMIT
    ensures r.checker == SourceSeen(p.checker) && r.interactor == SourceSeen(p.interactor)
    ensures r.checker == p.checker <==> Bytes(p.checker) <= SOURCE_LIMIT
    ensures r.interactor == p.interactor <==> Bytes(p.interactor) <= SOURCE_LIMIT
    ensures r.title == p.title <==>
            if MetaFits(p) then CleanTitle(p.title) && p.title != "" else p.title == DEFAULT_TITLE
    ensures r.timeMS == p.timeMS <==> if MetaFits(p) then 50 <= p.timeMS <= 600_000 else p.timeMS == 1000
    ensures r.memMB == p.memMB <==> if MetaFits(p) then 16 <= p.memMB <= 8192 else p.memMB == 256
    ensures r.mode == p.mode <==>
            if MetaFits(p) then ModeMatchesSources(Seen(p))
            else p.mode == ModeOf("", SourceSeen(p.checker), SourceSeen(p.interactor))
    ensures r.cases == Renumbered(Answered(cases))
  {
    var entries := Archive(p, files);
    var s := ScanAll(entries);
    var sorted :| IsSortOf(CaseBefore, Paired(entries, s.ins), sorted) &&
                  Created(r) == AnswerFor(millis, entries, s, sorted);
    SortedPairs(p, cases, files, sorted);
    assert Numbered(sorted) == Renumbered(Answered(cases));
    SettingsBack(millis, p, files, cases, Numbered(sorted));
    MetaBack(p);
    StatementBack(p);
  }

  // So an interactive problem whose interactor is one byte over the limit arrives without it, and is
  // still said to be interactive.
  lemma LargeInteractorIsLost(millis: string -> int, zipBytes: nat, cases: seq<Case>, files: seq<Entry>, r: Imported)
    requires Ascending(cases) && ListsTestdata(files, cases) && forall c | c in cases :: c.index <= MAX_INT
    requires
      var large := seq(SOURCE_LIMIT + 1, _ => 'x');
      var p := Problem(1, "A", "", 1000, 256, MODE_INTERACTIVE, "", large);
      ImportsTo(millis, zipBytes, Archive(p, files), Created(r))
    ensures r.interactor == "" && r.mode == MODE_INTERACTIVE
  {
    var large := seq(SOURCE_LIMIT + 1, _ => 'x');
    var p := Problem(1, "A", "", 1000, 256, MODE_INTERACTIVE, "", large);
    BytesBounds(large);
    BytesBounds(MetaText(p));
    BytesBounds("");
    ShortMeta(p);
    RoundTrip(millis, zipBytes, p, cases, files, r);
  }

  lemma ShortMeta(p: Problem)
    requires p.id == 1 && p.title == "A" && p.timeMS == 1000 && p.memMB == 256 && p.mode == MODE_INTERACTIVE
    ensures |MetaText(p)| < 200
  {
    var a, b, c := Limits(p)[0], Limits(p)[1], Limits(p)[2];
    MetaTextParts(p);
    assert Dec(1) == "1" && |DecInt(1000)| == 4 && |DecInt(256)| == 3;
    assert Limits(p) == [a] + ([b] + ([c] + []));
    ConsFields(a, [b] + ([c] + []), map[]);
    ConsFields(b, [c] + [], map[]);
    ConsFields(c, [], map[]);
  }

  lemma NoPairsIffUnanswered(p: Problem, cases: seq<Case>, files: seq<Entry>)
    requires Ascending(cases) && ListsTestdata(files, cases)
    ensures Paired(Archive(p, files), ScanAll(Archive(p, files)).ins) == [] <==> forall c | c in cases :: c.answer.None?
  {
    ArchivePairs(p, cases, files);
    var found, kept := Paired(Archive(p, files), ScanAll(Archive(p, files)).ins), Answered(cases);
    if found != [] {
      assert found[0] in Keys(kept);
    }
    if kept != [] {
      assert kept[0] in kept && Keys(kept)[0] in found;
    }
  }

  // An input and an answer the importer can read.
  predicate Readable(c: Case) {
    Bytes(c.input) <= CASE_LIMIT && (c.answer.Some? ==> Bytes(c.answer.value) <= CASE_LIMIT)
  }

  lemma PairsFitIff(p: Problem, cases: seq<Case>, files: seq<Entry>)
    requires Ascending(cases) && ListsTestdata(files, cases)
    ensures (forall k | k in Paired(Archive(p, files), ScanAll(Archive(p, files)).ins) :: Fits(k)) <==>
            forall c | c in cases && c.answer.Some? :: Readable(c)
  {
    ArchivePairs(p, cases, files);
    var kept := Answered(cases);
    forall i | 0 <= i < |kept|
      ensures kept[i] in cases && Keys(kept)[i] == KeyOf(kept[i]) && (Fits(Keys(kept)[i]) <==> Readable(kept[i]))
    {
      assert kept[i] in kept;
    }
    assert forall i | 0 <= i < |kept| :: Keys(kept)[i] in Keys(kept);
  }

  /** An exported archive is refused exactly when it is larger than 128 MiB, no case has an answer, or
      an answered case has an input or answer larger than 256 MiB. */
  lemma RefusedIff(millis: string -> int, zipBytes: nat, p: Problem, cases: seq<Case>, files: seq<Entry>, r: Answer)
    requires Ascending(cases) && ListsTestdata(files, cases)
    requires ImportsTo(millis, zipBytes, Archive(p, files), r)
    ensures r == Refused(ZipTooLarge) <==> zipBytes > ZIP_LIMIT
    ensures r == Refused(NoCases) <==> zipBytes <= ZIP_LIMIT && forall c | c in cases :: c.answer.None?
    ensures r.Refused? <==>
            || zipBytes > ZIP_LIMIT || (forall c | c in cases :: c.answer.None?)
            || exists c | c in cases && c.answer.Some? :: !Readable(c)
  {
    RefusedWhy(millis, zipBytes, Archive(p, files), r);
    NoPairsIffUnanswered(p, cases, files);
    PairsFitIff(p, cases, files);
  }
}
