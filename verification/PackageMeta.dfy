/** meta.txt of a problem package: what exportProblem prints (backend/internal/handler/problem_extra.go)
    and what importProblem reads back (problem_import.go). */
module PackageMeta {
  import opened Text
  import opened FlatYaml

  const MODE_DEFAULT := "default"
  const MODE_SPJ := "spj"
  const MODE_INTERACTIVE := "interactive"

  datatype Problem = Problem(
    id: nat, title: string, statement: string, timeMS: int, memMB: int, mode: string,
    checker: string, interactor: string)

  predicate IsMode(mode: string) { mode == MODE_DEFAULT || mode == MODE_SPJ || mode == MODE_INTERACTIVE }

  predicate IsInt(n: int) { MIN_INT <= n <= MAX_INT }

  // What every stored problem meets: one of the three modes, and limits that are machine integers.
  predicate Stored(p: Problem) { IsMode(p.mode) && IsInt(p.timeMS) && IsInt(p.memMB) }

  // One line of the format "key=value\n".
  function Printed(key: string, value: string): string { key + "=" + value + "\n" }

  function PrintAll(fields: seq<(string, string)>): string {
    if fields == [] then "" else Printed(fields[0].0, fields[0].1) + PrintAll(fields[1..])
  }

  function Limits(p: Problem): seq<(string, string)> {
    [("time_limit_ms", DecInt(p.timeMS)), ("mem_limit_mb", DecInt(p.memMB)), ("judge_mode", p.mode)]
  }

  function MetaText(p: Problem): string { PrintAll([("id", Dec(p.id)), ("title", p.title)] + Limits(p)) }

  // ---------------------------------------------------------------- the lines the reader sees

  function Field(key: string, value: string): string { key + ": " + ReplaceEquals(value) }

  lemma ReplaceLine(value: string)
    ensures ReplaceEquals(value + ['\n']) == ReplaceEquals(value) + ['\n']
  {
    ReplaceAppend(value, ['\n']);
  }

  lemma ReplacePrinted(key: string, value: string)
    requires '=' !in key
    ensures ReplaceEquals(Printed(key, value)) == Field(key, value) + ['\n']
  {
    var tail := value + ['\n'];
    assert Printed(key, value) == key + (['='] + tail);
    ReplaceAppend(key, ['='] + tail);
    ReplaceEffect(key);
    ReplaceLine(value);
  }

  // One field more in front.
  lemma FieldLines(key: string, value: string, rest: string)
    requires '=' !in key
    ensures Split(ReplaceEquals(Printed(key, value) + rest), '\n') ==
            Split(Field(key, value), '\n') + Split(ReplaceEquals(rest), '\n')
  {
    ReplacePrinted(key, value);
    ReplaceAppend(Printed(key, value), rest);
    SplitAppend(Field(key, value), '\n', ReplaceEquals(rest));
  }

  lemma FieldIsLine(key: string, value: string)
    requires '\n' !in key && '\n' !in value
    ensures Split(Field(key, value), '\n') == [Field(key, value)]
  {
    ReplaceEffect(value);
  }

  // Numbers and modes are their own value.
  predicate PlainValue(v: string) {
    v != "" && forall c | c in v :: !IsSpace(c) && !IsQuote(c) && !IsBrace(c) && c != '='
  }

  lemma DecPlain(n: int)
    ensures PlainValue(DecInt(n))
  {
  }

  lemma ModePlain(mode: string)
    requires IsMode(mode)
    ensures PlainValue(mode)
  {
  }

  lemma PlainScalar(v: string)
    requires PlainValue(v)
    ensures Scalar(v) == v && !IsFlow(v) && ReplaceEquals(v) == v && '\n' !in v
  {
    assert v[0] in v && v[|v| - 1] in v;
    TrimEffect(v, IsSpace);
    TrimEffect(v, IsQuote);
  }

  // A line with such a value sets exactly its key.
  lemma PlainFieldStep(st: State, key: string, v: string)
    requires PlainKey(key) && PlainValue(v)
    ensures LineStep(st, Field(key, v)) == State(st.out[key := v], "")
    ensures Split(Field(key, v), '\n') == [Field(key, v)]
  {
    PlainScalar(v);
    PlainLine(st, key, v);
    FieldIsLine(key, v);
  }

  function SetAll(out: map<string, string>, fields: seq<(string, string)>): map<string, string>
    decreases |fields|
  {
    if fields == [] then out else SetAll(out[fields[0].0 := fields[0].1], fields[1..])
  }

  lemma ConsFields(f: (string, string), rest: seq<(string, string)>, out: map<string, string>)
    ensures PrintAll([f] + rest) == Printed(f.0, f.1) + PrintAll(rest)
    ensures SetAll(out, [f] + rest) == SetAll(out[f.0 := f.1], rest)
  {
  }

  ghost predicate AllPlain(fields: seq<(string, string)>) {
    forall f | f in fields :: PlainKey(f.0) && PlainValue(f.1)
  }

  lemma OneLine(st: State, line: string)
    ensures Lines(st, [line]) == LineStep(st, line)
  {
  }

  lemma FirstFieldRead(st: State, key: string, value: string, rest: string)
    requires PlainKey(key) && PlainValue(value)
    ensures Lines(st, Split(ReplaceEquals(Printed(key, value) + rest), '\n')) ==
            Lines(State(st.out[key := value], ""), Split(ReplaceEquals(rest), '\n'))
  {
    PlainFieldStep(st, key, value);
    FieldLines(key, value, rest);
    LinesAppend(st, [Field(key, value)], Split(ReplaceEquals(rest), '\n'));
  }

  // Printed fields with plain keys and values are read back one by one, whatever came before.
  lemma {:induction false} FieldsRead(st: State, fields: seq<(string, string)>)
    requires AllPlain(fields)
    ensures Lines(st, Split(ReplaceEquals(PrintAll(fields)), '\n')).out == SetAll(st.out, fields)
    decreases |fields|
  {
    if fields == [] {
    } else {
      var key, value := fields[0].0, fields[0].1;
      FirstFieldRead(st, key, value, PrintAll(fields[1..]));
      FieldsRead(State(st.out[key := value], ""), fields[1..]);
    }
  }

  // Everything read before the fields that follow the title.
  function BeforeLimits(p: Problem): State {
    Lines(LineStep(START, Field("id", Dec(p.id))), Split(Field("title", p.title), '\n'))
  }

  lemma TimeKeyPlain()
    ensures PlainKey("time_limit_ms")
  {
  }

  lemma MemKeyPlain()
    ensures PlainKey("mem_limit_mb")
  {
  }

  lemma ModeKeyPlain()
    ensures PlainKey("judge_mode")
  {
  }

  lemma LimitsPlain(p: Problem)
    requires Stored(p)
    ensures AllPlain(Limits(p))
  {
    TimeKeyPlain();
    MemKeyPlain();
    ModeKeyPlain();
    DecPlain(p.timeMS);
    DecPlain(p.memMB);
    ModePlain(p.mode);
  }

  lemma MetaTextParts(p: Problem)
    ensures MetaText(p) == Printed("id", Dec(p.id)) + (Printed("title", p.title) + PrintAll(Limits(p)))
  {
    var id, title := ("id", Dec(p.id)), ("title", p.title);
    assert [id, title] + Limits(p) == [id] + ([title] + Limits(p));
    ConsFields(id, [title] + Limits(p), map[]);
  }

  // What the reader makes of meta.txt, whatever the title does to the lines before the limits.
  lemma MetaRead(p: Problem)
    requires Stored(p)
    ensures KV(MetaText(p)) == SetAll(BeforeLimits(p).out, Limits(p))
  {
    var tail := PrintAll(Limits(p));
    MetaTextParts(p);
    FieldLines("id", Dec(p.id), Printed("title", p.title) + tail);
    FieldLines("title", p.title, tail);
    IdRead(p);
    MetaReadFrom(p, Split(Field("title", p.title), '\n'), Split(ReplaceEquals(tail), '\n'));
    LimitsPlain(p);
    FieldsRead(BeforeLimits(p), Limits(p));
  }

  lemma MetaReadFrom(p: Problem, title: seq<string>, tail: seq<string>)
    requires title == Split(Field("title", p.title), '\n')
    ensures Lines(START, [Field("id", Dec(p.id))] + (title + tail)) == Lines(BeforeLimits(p), tail)
  {
    var id := Field("id", Dec(p.id));
    LinesAppend(START, [id], title + tail);
    LinesAppend(LineStep(START, id), title, tail);
  }

  // The value each name ends up with.
  lemma MetaValues(p: Problem)
    requires Stored(p)
    ensures
      var out := KV(MetaText(p));
      && Get(out, "time_limit_ms") == DecInt(p.timeMS) && Get(out, "mem_limit_mb") == DecInt(p.memMB)
      && Get(out, "judge_mode") == p.mode && Get(out, "title") == Get(BeforeLimits(p).out, "title")
  {
    MetaRead(p);
    var out, a, b, c := BeforeLimits(p).out, Limits(p)[0], Limits(p)[1], Limits(p)[2];
    assert Limits(p) == [a] + ([b] + ([c] + []));
    ConsFields(b, [c] + [], out[a.0 := a.1]);
  }

  // ---------------------------------------------------------------- the title

  // No '=', one line, nothing at its ends that the reader strips, and not in braces.
  predicate CleanTitle(t: string) {
    '=' !in t && '\n' !in t && Tight(t, IsSpace) && Tight(t, IsQuote) && !IsFlow(t)
  }

  lemma ScalarIsAll(t: string)
    ensures Scalar(t) == t <==> Tight(t, IsSpace) && Tight(t, IsQuote)
  {
    TrimEffect(t, IsSpace);
    TrimEffect(TrimSpace(t), IsQuote);
  }

  lemma IdRead(p: Problem)
    ensures LineStep(START, Field("id", Dec(p.id))) == State(map["id" := Dec(p.id)], "")
    ensures '\n' !in Dec(p.id) && '=' !in Dec(p.id)
    ensures Split(Field("id", Dec(p.id)), '\n') == [Field("id", Dec(p.id))]
  {
    PlainFieldStep(START, "id", Dec(p.id));
  }

  // A title on one line.
  lemma OneLineTitle(p: Problem)
    requires '\n' !in p.title
    ensures
      var val := Scalar(ReplaceEquals(p.title));
      Get(BeforeLimits(p).out, "title") == if IsFlow(val) then "" else val
  {
    var s0, text := LineStep(START, Field("id", Dec(p.id))), ReplaceEquals(p.title);
    IdRead(p);
    FieldIsLine("title", p.title);
    OneLine(s0, Field("title", p.title));
    PlainLine(s0, "title", text);
    FlowKeeps(s0.out, "title", Split(Trim(Scalar(text), IsBrace), ','), "title");
  }

  lemma TitleLinesFree(title: string, c: char)
    requires c == '=' || c == '\n'
    ensures forall line | line in Split(Field("title", title), '\n') :: c !in line
  {
    ReplaceEffect(title);
    SplitPieces(Field("title", title), '\n');
  }

  // The reader never returns a '=' or a line break.
  lemma TitleChars(p: Problem, c: char)
    requires c == '=' || c == '\n'
    ensures c !in Get(BeforeLimits(p).out, "title")
  {
    IdRead(p);
    TitleLinesFree(p.title, c);
    LinesFree(LineStep(START, Field("id", Dec(p.id))), Split(Field("title", p.title), '\n'), c);
  }

  /** The title comes back exactly when it is clean. */
  lemma TitleIff(p: Problem)
    requires Stored(p)
    ensures Get(KV(MetaText(p)), "title") == p.title <==> CleanTitle(p.title)
  {
    MetaValues(p);
    TitleChars(p, '=');
    TitleChars(p, '\n');
    if '=' !in p.title && '\n' !in p.title {
      OneLineTitle(p);
      ReplaceEffect(p.title);
      ScalarIsAll(p.title);
    }
  }

  // ---------------------------------------------------------------- the limits

  function Clamp(v: int, lo: int, hi: int): int { if v < lo then lo else if v > hi then hi else v }

  lemma IntOrOfDec(n: int, def: int)
    requires IsInt(n)
    ensures IntOr(DecInt(n), def) == if n <= 0 then def else n
  {
    var s := DecInt(n);
    DecPlain(n);
    assert s[0] in s && s[|s| - 1] in s;
    AtoiOfDecInt(n);
  }

  /** A limit comes back exactly when it lies inside the importer's clamp. */
  lemma LimitIff(n: int, def: int, lo: int, hi: int)
    requires IsInt(n) && 0 < lo <= def <= hi
    ensures Clamp(IntOr(DecInt(n), def), lo, hi) == n <==> lo <= n <= hi
  {
    IntOrOfDec(n, def);
  }

  // ---------------------------------------------------------------- the judge mode

  // The last switch of scanPackage, for a package with a meta.txt.
  function ModeOf(text: string, checker: string, interactor: string): string {
    if interactor != "" then MODE_INTERACTIVE
    else if checker != "" then MODE_SPJ
    else if text == MODE_SPJ || text == MODE_INTERACTIVE then text
    else MODE_DEFAULT
  }

  // A problem whose mode is the one its judge sources imply.
  predicate ModeMatchesSources(p: Problem) {
    && (p.interactor != "" ==> p.mode == MODE_INTERACTIVE)
    && (p.interactor == "" && p.checker != "" ==> p.mode == MODE_SPJ)
  }

  /** The mode comes back exactly when it matches the sources that travel with it. */
  lemma ModeIff(p: Problem)
    requires Stored(p)
    ensures ModeOf(Get(KV(MetaText(p)), "judge_mode"), p.checker, p.interactor) == p.mode <==> ModeMatchesSources(p)
  {
    MetaValues(p);
  }
}
