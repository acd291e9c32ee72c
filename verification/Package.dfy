/** Problem packages: the archive exportProblem writes (backend/internal/handler/problem_extra.go) and
    how scanPackage and storeImportedCases read one (problem_import.go). */
module Package {
  import opened NaturalOrder
  import opened Options
  import opened Ordering
  import opened PackageMeta
  import opened Text
  import FlatYaml

  datatype Entry = Entry(name: string, content: string)

  // A stored test case; its files are <index>.in and <index>.out.
  datatype Case = Case(index: nat, input: string, answer: Option<string>)

  datatype Imported = Imported(
    title: string, statement: string, timeMS: int, memMB: int, mode: string,
    checker: string, interactor: string, cases: seq<Case>)

  // "import problem", the title of a package without one
  const DEFAULT_TITLE := "\U{5BFC}\U{5165}\U{9898}\U{76EE}"

  // ---------------------------------------------------------------- size limits, in bytes

  const ZIP_LIMIT := 0x800_0000          // maxZipBytes, 128 MiB
  const META_LIMIT := 0x10_0000          // meta.txt and problem.yaml, 1 MiB
  const SOURCE_LIMIT := 0x8_0000         // a judge source, 512 KiB
  const STATEMENT_LIMIT := 0x40_0000     // 4 MiB
  const CASE_LIMIT := 0x1000_0000        // an input or an answer, 256 MiB

  // readZipFile; None is its error.
  function ReadEntry(e: Entry, limit: nat): Option<string> {
    if Bytes(e.content) > limit then None else Some(e.content)
  }

  // ---------------------------------------------------------------- entry names

  function LowerChar(c: char): char { if 'A' <= c <= 'Z' then (c as int + 32) as char else c }

  function Lower(s: string): string { seq(|s|, i requires 0 <= i < |s| => LowerChar(s[i])) }

  predicate Contains(s: string, part: string) { exists i | 0 <= i <= |s| :: HasPrefix(s[i..], part) }

  predicate Skipped(e: Entry) { HasSuffix(e.name, "/") || Contains(e.name, "__MACOSX") }

  predicate IsStatementPath(lower: string) {
    || HasPrefix(lower, "statements/") || lower == "statement.md" || lower == "problem.md"
    || HasPrefix(lower, "problem_zh") || HasPrefix(lower, "problem_en")
  }

  datatype Source = NoSource | Checker | Interactor

  // [^/]*\.(cc|cpp|cxx)$
  predicate EndsAsSource(rest: string) {
    '/' !in rest && (HasSuffix(rest, ".cc") || HasSuffix(rest, ".cpp") || HasSuffix(rest, ".cxx"))
  }

  predicate WordFits(s: string, word: string) { HasPrefix(s, word) && EndsAsSource(s[|word|..]) }

  function SourceHere(s: string): Source {
    if WordFits(s, "checker") || WordFits(s, "validator") || WordFits(s, "spj") then Checker
    else if WordFits(s, "interactor") || WordFits(s, "interact") then Interactor
    else NoSource
  }

  // judgeSrcRe: the leftmost match decides.
  function SourceKind(lower: string): Source {
    if SourceHere(lower) != NoSource || lower == "" then SourceHere(lower) else SourceKind(lower[1..])
  }

  // ---------------------------------------------------------------- one walk over the archive

  datatype Scan = Scan(own: bool, meta: map<string, string>, yaml: string,
                       statements: seq<string>, texs: seq<string>,
                       checker: string, interactor: string, ins: seq<Entry>)

  const NOTHING := Scan(false, map[], "", [], [], "", "", [])

  function ScanText(acc: Scan, e: Entry): Scan {
    var lower := Lower(e.name);
    if lower == "meta.txt" || lower == "/meta.txt" then
      match ReadEntry(e, META_LIMIT)
      case Some(text) => acc.(own := true, meta := FlatYaml.KV(text))
      case None => acc
    else if lower == "problem.yaml" then
      match ReadEntry(e, META_LIMIT)
      case Some(text) => acc.(yaml := text)
      case None => acc
    else if HasSuffix(lower, ".md") && IsStatementPath(lower) then acc.(statements := acc.statements + [e.name])
    else if HasSuffix(lower, ".tex") && IsStatementPath(lower) then acc.(texs := acc.texs + [e.name])
    else acc
  }

  // A judge source over the limit is skipped.
  function ScanSource(acc: Scan, e: Entry): Scan {
    var kind := SourceKind(Lower(e.name));
    if kind == NoSource || Bytes(e.name) >= 200 then acc
    else
      match ReadEntry(e, SOURCE_LIMIT)
      case Some(text) =>
        if kind == Interactor then acc.(interactor := text)
        else if acc.checker == "" then acc.(checker := text) else acc
      case None => acc
  }

  function ScanStep(acc: Scan, e: Entry): Scan {
    if Skipped(e) then acc
    else
      var acc1 := ScanSource(ScanText(acc, e), e);
      if HasSuffix(Lower(e.name), ".in") then acc1.(ins := acc1.ins + [e]) else acc1
  }

  function ScanAll(entries: seq<Entry>): Scan {
    if entries == [] then NOTHING else ScanStep(ScanAll(entries[..|entries| - 1]), entries[|entries| - 1])
  }

  // ---------------------------------------------------------------- pairing

  predicate AnswersBy(e: Entry, ext: string, name: string) {
    HasSuffix(Lower(e.name), ext) && Lower(TrimSuffix(e.name, ext)) == Lower(name)
  }

  predicate Answers(e: Entry, name: string) {
    AnswersBy(e, ".ans", name) || AnswersBy(e, ".out", name) || AnswersBy(e, ".a", name)
  }

  // The last entry that answers.
  function AnswerIn(entries: seq<Entry>, name: string): Option<Entry> {
    if entries == [] then None
    else
      var last := entries[|entries| - 1];
      if Answers(last, name) then Some(last) else AnswerIn(entries[..|entries| - 1], name)
  }

  function LastSlash(s: string): (i: nat)
    ensures i <= |s|
  {
    if s == [] then 0 else if s[|s| - 1] == '/' then |s| else LastSlash(s[..|s| - 1])
  }

  // filepath.Dir and filepath.Base of a clean path.
  function Dir(path: string): string {
    var i := LastSlash(path);
    if i == 0 then "." else if i == 1 then "/" else path[..i - 1]
  }

  function Base(path: string): string { path[LastSlash(path)..] }

  function CaseName(e: Entry): string { TrimSuffix(e.name, ".in") }

  function Paired(entries: seq<Entry>, ins: seq<Entry>): seq<CaseKey> {
    if ins == [] then []
    else
      var rest, last := Paired(entries, ins[..|ins| - 1]), ins[|ins| - 1];
      match AnswerIn(entries, CaseName(last))
      case Some(answer) => rest + [CaseKey(Dir(CaseName(last)), Base(CaseName(last)), last.content, answer.content)]
      case None => rest
  }

  // ---------------------------------------------------------------- the result

  function MinName(names: seq<string>): string
    requires names != []
  {
    if |names| == 1 then names[0]
    else
      var rest, last := MinName(names[..|names| - 1]), names[|names| - 1];
      if LexLess(Codes(last), Codes(rest)) then last else rest
  }

  // The first entry of that name, if it is there and within the limit of a statement.
  function ReadNamed(entries: seq<Entry>, name: string): Option<string> {
    if entries == [] then None
    else if entries[0].name == name then ReadEntry(entries[0], STATEMENT_LIMIT)
    else ReadNamed(entries[1..], name)
  }

  const TEX_HEAD :=
    "> \U{672C}\U{9898}\U{9898}\U{9762}\U{4E3A} LaTeX \U{6E90}\U{7801}\U{FF0C}\U{8BF7}" +
    "\U{81EA}\U{884C}\U{8F6C}\U{6362}\U{540E}\U{7F16}\U{8F91}\U{FF1A}\n\n```latex\n"

  function OwnValue(s: Scan, key: string): string { if s.own then FlatYaml.Get(s.meta, key) else "" }

  // Markdown first, then TeX as source; a value in meta.txt where neither can be read.
  function StatementOf(entries: seq<Entry>, s: Scan): string {
    if s.statements != [] then
      match ReadNamed(entries, MinName(s.statements))
      case Some(text) => text
      case None => OwnValue(s, "statement")
    else if s.texs != [] then
      match ReadNamed(entries, MinName(s.texs))
      case Some(text) => TEX_HEAD + text + "\n```"
      case None => OwnValue(s, "statement")
    else OwnValue(s, "statement")
  }

  // firstNonEmpty
  function FirstNonEmpty(vals: seq<string>): string {
    if vals == [] then "" else if TrimSpace(vals[0]) != "" then vals[0] else FirstNonEmpty(vals[1..])
  }

  // parseDurationOr; `millis` reads one trimmed lower-case text, and is not positive where it fails.
  function DurationOr(millis: string -> int, vals: seq<string>, def: int): int {
    if vals == [] then def
    else
      var s := Lower(TrimSpace(vals[0]));
      if s != "" && millis(s) > 0 then millis(s) else DurationOr(millis, vals[1..], def)
  }

  function TitleIn(s: Scan): string {
    var y, own := FlatYaml.FlatYaml(s.yaml), OwnValue(s, "title");
    if s.yaml != "" && own == "" then FirstNonEmpty([FlatYaml.Get(y, "title"), FlatYaml.Get(y, "name")]) else own
  }

  const TIME_KEYS := ["time", "time_limit", "time_limit_s", "limits.time", "limits.timeout", "limits.time_limit"]
  const MEM_KEYS := ["memory_limit", "memory_limit_mb", "memory", "limits.memory", "limits.memory_limit"]

  function GetAll(y: map<string, string>, keys: seq<string>): seq<string> {
    seq(|keys|, i requires 0 <= i < |keys| => FlatYaml.Get(y, keys[i]))
  }

  function TimeIn(millis: string -> int, s: Scan): int {
    var own := FlatYaml.IntOr(OwnValue(s, "time_limit_ms"), 1000);
    if s.yaml != "" then DurationOr(millis, GetAll(FlatYaml.FlatYaml(s.yaml), TIME_KEYS), own) else own
  }

  function MemIn(s: Scan): int {
    var own := FlatYaml.IntOr(OwnValue(s, "mem_limit_mb"), 256);
    if s.yaml != "" then FlatYaml.IntOr(FirstNonEmpty(GetAll(FlatYaml.FlatYaml(s.yaml), MEM_KEYS)), own) else own
  }

  // storeImportedCases numbers the sorted pairs from 1.
  function Numbered(cases: seq<CaseKey>): seq<Case> {
    seq(|cases|, i requires 0 <= i < |cases| => Case(i + 1, cases[i].input, Some(cases[i].answer)))
  }

  function TitleOf(title: string): string { if TrimSpace(title) == "" then DEFAULT_TITLE else title }

  function Settings(millis: string -> int, entries: seq<Entry>, s: Scan, cases: seq<Case>): Imported {
    Imported(
      TitleOf(TitleIn(s)), StatementOf(entries, s),
      Clamp(TimeIn(millis, s), 50, 600_000), Clamp(MemIn(s), 16, 8192),
      ModeOf(OwnValue(s, "judge_mode"), s.checker, s.interactor), s.checker, s.interactor, cases)
  }

  datatype Refusal = ZipTooLarge | NoCases | CaseTooLarge(index: nat)
  datatype Answer = Created(problem: Imported) | Refused(why: Refusal)

  predicate Fits(k: CaseKey) { Bytes(k.input) <= CASE_LIMIT && Bytes(k.answer) <= CASE_LIMIT }

  // The first case over the limit, or the length.
  function FirstTooLarge(cases: seq<CaseKey>): (i: nat)
    ensures i <= |cases| && (forall k | 0 <= k < i :: Fits(cases[k])) && (i < |cases| ==> !Fits(cases[i]))
  {
    if cases == [] || !Fits(cases[0]) then 0 else 1 + FirstTooLarge(cases[1..])
  }

  function AnswerFor(millis: string -> int, entries: seq<Entry>, s: Scan, sorted: seq<CaseKey>): Answer {
    if sorted == [] then Refused(NoCases)
    else if FirstTooLarge(sorted) < |sorted| then Refused(CaseTooLarge(FirstTooLarge(sorted) + 1))
    else Created(Settings(millis, entries, s, Numbered(sorted)))
  }

  /** What the upload of an archive may be answered with: the pairs in any order the sort allows. */
  ghost predicate ImportsTo(millis: string -> int, zipBytes: nat, entries: seq<Entry>, r: Answer) {
    if zipBytes > ZIP_LIMIT then r == Refused(ZipTooLarge)
    else
      var s := ScanAll(entries);
      exists sorted :: IsSortOf(CaseBefore, Paired(entries, s.ins), sorted) &&
                       r == AnswerFor(millis, entries, s, sorted)
  }

  // ---------------------------------------------------------------- the code

  // The switch over the entry's name.
  method ClassifyText(acc: Scan, e: Entry) returns (s: Scan)
    ensures s == ScanText(acc, e)
  {
    s := acc;
    var lower := Lower(e.name);
    if lower == "meta.txt" || lower == "/meta.txt" {
      var raw := ReadEntry(e, META_LIMIT);
      if raw.Some? {
        var kv := FlatYaml.ParseKV(raw.value);
        s := s.(meta := kv, own := true);
      }
    } else if lower == "problem.yaml" {
      var raw := ReadEntry(e, META_LIMIT);
      if raw.Some? {
        s := s.(yaml := raw.value);
      }
    } else if HasSuffix(lower, ".md") && IsStatementPath(lower) {
      s := s.(statements := s.statements + [e.name]);
    } else if HasSuffix(lower, ".tex") && IsStatementPath(lower) {
      s := s.(texs := s.texs + [e.name]);
    }
  }

  lemma WordNeedsEnd(s: string, word: string)
    requires s != "" && s[|s| - 1] != 'c' && s[|s| - 1] != 'p' && s[|s| - 1] != 'x'
    ensures !WordFits(s, word)
  {
  }

  lemma {:induction false} NoSourceOf(s: string)
    requires s != "" && s[|s| - 1] != 'c' && s[|s| - 1] != 'p' && s[|s| - 1] != 'x'
    ensures SourceKind(s) == NoSource
  {
    WordNeedsEnd(s, "checker");
    WordNeedsEnd(s, "validator");
    WordNeedsEnd(s, "spj");
    WordNeedsEnd(s, "interactor");
    if |s| == 1 {
    } else {
      NoSourceOf(s[1..]);
    }
  }

  // A judge source that is skipped for its size is not an input either.
  lemma SourceIsNoInput(lower: string)
    requires SourceKind(lower) != NoSource
    ensures !HasSuffix(lower, ".in")
  {
    if HasSuffix(lower, ".in") {
      NoSourceOf(lower);
    }
  }

  method ScanArchive(entries: seq<Entry>) returns (s: Scan)
    ensures s == ScanAll(entries)
  {
    s := NOTHING;
    for i := 0 to |entries|
      invariant s == ScanAll(entries[..i])
    {
      assert entries[..i + 1][..i] == entries[..i];
      var e := entries[i];
      if !Skipped(e) {
        s := ClassifyText(s, e);
        var lower := Lower(e.name);
        var kind := SourceKind(lower);
        if kind != NoSource && Bytes(e.name) < 200 {
          var raw := ReadEntry(e, SOURCE_LIMIT);
          if raw.None? {
            SourceIsNoInput(lower);
            continue;
          }
          if kind == Interactor {
            s := s.(interactor := raw.value);
          } else if s.checker == "" {
            s := s.(checker := raw.value);
          }
        }
        if HasSuffix(lower, ".in") {
          s := s.(ins := s.ins + [e]);
        }
      }
    }
    assert entries[..|entries|] == entries;
  }

  // The loop over the extensions.
  method AnswersCase(zf: Entry, name: string) returns (found: bool)
    ensures found == Answers(zf, name)
  {
    var lower, exts := Lower(zf.name), [".ans", ".out", ".a"];
    found := false;
    for k := 0 to 3
      invariant found <==> exists j | 0 <= j < k :: AnswersBy(zf, exts[j], name)
    {
      if HasSuffix(lower, exts[k]) && Lower(TrimSuffix(zf.name, exts[k])) == Lower(name) {
        found := true;
      }
    }
    assert exts[0] == ".ans" && exts[1] == ".out" && exts[2] == ".a";
  }

  // The loop over the archive: the last entry that answers wins.
  method FindAnswer(entries: seq<Entry>, name: string) returns (answer: Option<Entry>)
    ensures answer == AnswerIn(entries, name)
  {
    answer := None;
    for i := 0 to |entries|
      invariant answer == AnswerIn(entries[..i], name)
    {
      assert entries[..i + 1][..i] == entries[..i];
      var found := AnswersCase(entries[i], name);
      if found {
        answer := Some(entries[i]);
      }
    }
    assert entries[..|entries|] == entries;
  }

  method PairCases(entries: seq<Entry>, ins: seq<Entry>) returns (kept: seq<CaseKey>)
    ensures kept == Paired(entries, ins)
  {
    kept := [];
    for i := 0 to |ins|
      invariant kept == Paired(entries, ins[..i])
    {
      assert ins[..i + 1][..i] == ins[..i];
      var name := CaseName(ins[i]);
      var answer := FindAnswer(entries, name);
      if answer.Some? {
        kept := kept + [CaseKey(Dir(name), Base(name), ins[i].content, answer.value.content)];
      }
    }
    assert ins[..|ins|] == ins;
  }

  // storeImportedCases; Some is the number of the case whose input or answer could not be read.
  method StoreCases(cases: seq<CaseKey>) returns (stored: seq<Case>, failed: Option<nat>)
    ensures failed == if FirstTooLarge(cases) < |cases| then Some(FirstTooLarge(cases) + 1) else None
    ensures failed == None ==> stored == Numbered(cases)
  {
    stored, failed := [], None;
    for i := 0 to |cases|
      invariant |stored| == i <= FirstTooLarge(cases)
      invariant forall k | 0 <= k < i :: stored[k] == Case(k + 1, cases[k].input, Some(cases[k].answer))
    {
      if Bytes(cases[i].input) > CASE_LIMIT {
        return stored, Some(i + 1);
      }
      if Bytes(cases[i].answer) > CASE_LIMIT {
        return stored, Some(i + 1);
      }
      stored := stored + [Case(i + 1, cases[i].input, Some(cases[i].answer))];
    }
  }

  // The loop over the archive for one name.
  method FindNamed(entries: seq<Entry>, name: string) returns (text: Option<string>)
    ensures text == ReadNamed(entries, name)
  {
    assert entries[0..] == entries;
    for i := 0 to |entries|
      invariant ReadNamed(entries, name) == ReadNamed(entries[i..], name)
    {
      if entries[i].name == name {
        return ReadEntry(entries[i], STATEMENT_LIMIT);
      }
    }
    return None;
  }

  method FindStatement(entries: seq<Entry>, s: Scan) returns (statement: string)
    ensures statement == StatementOf(entries, s)
  {
    statement := if s.own then FlatYaml.Get(s.meta, "statement") else "";
    if s.statements != [] {
      var text := FindNamed(entries, MinName(s.statements));
      if text.Some? {
        statement := text.value;
      }
    } else if s.texs != [] {
      var text := FindNamed(entries, MinName(s.texs));
      if text.Some? {
        statement := TEX_HEAD + text.value + "\n```";
      }
    }
  }

  method FindNonEmpty(vals: seq<string>) returns (v: string)
    ensures v == FirstNonEmpty(vals)
  {
    assert vals[0..] == vals;
    for i := 0 to |vals|
      invariant FirstNonEmpty(vals) == FirstNonEmpty(vals[i..])
    {
      if TrimSpace(vals[i]) != "" {
        return vals[i];
      }
    }
    return "";
  }

  method ParseDurationOr(millis: string -> int, vals: seq<string>, def: int) returns (ms: int)
    ensures ms == DurationOr(millis, vals, def)
  {
    assert vals[0..] == vals;
    for i := 0 to |vals|
      invariant DurationOr(millis, vals, def) == DurationOr(millis, vals[i..], def)
    {
      var s := Lower(TrimSpace(vals[i]));
      if s != "" && millis(s) > 0 {
        return millis(s);
      }
    }
    return def;
  }

  // The metadata: meta.txt first, then problem.yaml.
  method ReadMetadata(millis: string -> int, s: Scan) returns (title: string, timeMS: int, memMB: int, mode: string)
    ensures title == TitleIn(s) && timeMS == TimeIn(millis, s) && memMB == MemIn(s)
    ensures mode == OwnValue(s, "judge_mode")
  {
    title, timeMS, memMB, mode := "", 1000, 256, "";
    if s.own {
      title := FlatYaml.Get(s.meta, "title");
      timeMS := FlatYaml.IntOr(FlatYaml.Get(s.meta, "time_limit_ms"), timeMS);
      memMB := FlatYaml.IntOr(FlatYaml.Get(s.meta, "mem_limit_mb"), memMB);
      mode := FlatYaml.Get(s.meta, "judge_mode");
    }
    NoNumber();
    if s.yaml != "" {
      var y := FlatYaml.ParseFlatYAML(s.yaml);
      if title == "" {
        title := FindNonEmpty([FlatYaml.Get(y, "title"), FlatYaml.Get(y, "name")]);
      }
      timeMS := ParseDurationOr(millis, GetAll(y, TIME_KEYS), timeMS);
      var mem := FindNonEmpty(GetAll(y, MEM_KEYS));
      memMB := FlatYaml.IntOr(mem, memMB);
    }
  }

  lemma NoNumber()
    ensures forall def :: FlatYaml.IntOr("", def) == def
  {
  }

  /** scanPackage and importProblem. */
  method ImportPackage(millis: string -> int, zipBytes: nat, entries: seq<Entry>) returns (r: Answer)
    ensures ImportsTo(millis, zipBytes, entries, r)
  {
    if zipBytes > ZIP_LIMIT {
      return Refused(ZipTooLarge);
    }
    var s := ScanArchive(entries);
    var kept := PairCases(entries, s.ins);
    var sorted := SortCases(kept);
    var title, timeMS, memMB, mode := ReadMetadata(millis, s);
    var statement := FindStatement(entries, s);
    mode := ModeOf(mode, s.checker, s.interactor);
    if |sorted| == 0 {
      return Refused(NoCases);
    }
    if TrimSpace(title) == "" {
      title := DEFAULT_TITLE;
    }
    var stored, failed := StoreCases(sorted);
    if failed.Some? {
      return Refused(CaseTooLarge(failed.value));
    }
    return Created(Imported(title, statement, Clamp(timeMS, 50, 600_000), Clamp(memMB, 16, 8192),
                            mode, s.checker, s.interactor, stored));
  }

  /** Why an upload is refused, whatever the sort does. */
  lemma RefusedWhy(millis: string -> int, zipBytes: nat, entries: seq<Entry>, r: Answer)
    requires ImportsTo(millis, zipBytes, entries, r)
    ensures
      var found := Paired(entries, ScanAll(entries).ins);
      && (r == Refused(ZipTooLarge) <==> zipBytes > ZIP_LIMIT)
      && (r == Refused(NoCases) <==> zipBytes <= ZIP_LIMIT && found == [])
      && (r.Created? <==> zipBytes <= ZIP_LIMIT && found != [] && forall k | k in found :: Fits(k))
  {
    if zipBytes <= ZIP_LIMIT {
      var s := ScanAll(entries);
      var found := Paired(entries, s.ins);
      var sorted :| IsSortOf(CaseBefore, found, sorted) && r == AnswerFor(millis, entries, s, sorted);
      SameMembers(found, sorted);
      if FirstTooLarge(sorted) < |sorted| {
        assert sorted[FirstTooLarge(sorted)] in found;
      }
    }
  }

  // What exportProblem writes: statement, meta.txt, judge sources, then the files of the data directory.
  function DataEntry(f: Entry): Entry { Entry("testdata/" + f.name, f.content) }

  function DataEntries(files: seq<Entry>): seq<Entry> {
    seq(|files|, i requires 0 <= i < |files| => DataEntry(files[i]))
  }

  function HeadEntries(p: Problem): seq<Entry> {
    [Entry("statement.md", p.statement), Entry("meta.txt", MetaText(p))]
    + (if p.checker != "" then [Entry("checker.cpp", p.checker)] else [])
    + (if p.interactor != "" then [Entry("interactor.cpp", p.interactor)] else [])
  }

  // A public sample of the statement.
  datatype Sample = Sample(input: string, output: string)

  // The samples as the files 1.in, 1.out, 2.in and so on.
  function SampleFiles(samples: seq<Sample>): seq<Entry> {
    if samples == [] then []
    else
      var n := |samples|;
      SampleFiles(samples[..n - 1]) + [Entry(Dec(n) + ".in", samples[n - 1].input),
                                       Entry(Dec(n) + ".out", samples[n - 1].output)]
  }

  // The problem without its judge sources.
  function Bare(p: Problem): Problem { p.(checker := "", interactor := "") }

  /** exportProblem: a shared archive carries the samples, and nothing of the test data or the judge
      sources. */
  method ExportProblem(p: Problem, files: seq<Entry>, samples: seq<Sample>, shared: bool)
    returns (entries: seq<Entry>)
    ensures !shared ==> entries == HeadEntries(p) + DataEntries(files)
    ensures shared ==> entries == HeadEntries(Bare(p)) + DataEntries(SampleFiles(samples))
  {
    entries := [Entry("statement.md", p.statement), Entry("meta.txt", MetaText(p))];
    if !shared {
      if p.checker != "" {
        entries := entries + [Entry("checker.cpp", p.checker)];
      }
      if p.interactor != "" {
        entries := entries + [Entry("interactor.cpp", p.interactor)];
      }
    }
    var data: seq<Entry>;
    if shared {
      data := WriteSamples(samples);
    } else {
      data := WriteFiles(files);
    }
    entries := entries + data;
  }

  // The loop over the data directory.
  method WriteFiles(files: seq<Entry>) returns (entries: seq<Entry>)
    ensures entries == DataEntries(files)
  {
    entries := [];
    for i := 0 to |files|
      invariant entries == DataEntries(files[..i])
    {
      assert DataEntries(files[..i + 1]) == DataEntries(files[..i]) + [DataEntry(files[i])];
      entries := entries + [Entry("testdata/" + files[i].name, files[i].content)];
    }
    assert files[..|files|] == files;
  }

  // The loop over the samples.
  method WriteSamples(samples: seq<Sample>) returns (entries: seq<Entry>)
    ensures entries == DataEntries(SampleFiles(samples))
  {
    entries := [];
    for i := 0 to |samples|
      invariant entries == DataEntries(SampleFiles(samples[..i]))
    {
      assert samples[..i + 1][..i] == samples[..i];
      entries := entries + [Entry("testdata/" + (Dec(i + 1) + ".in"), samples[i].input)];
      entries := entries + [Entry("testdata/" + (Dec(i + 1) + ".out"), samples[i].output)];
    }
    assert samples[..|samples|] == samples;
  }
}
