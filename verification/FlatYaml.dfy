/** The flat "key: value" reader of the package importer (backend/internal/handler/problem_import.go:
    parseFlatYAML, parseKV, parseIntOr). */
module FlatYaml {
  import opened Options
  import opened Text

  // ---------------------------------------------------------------- specification

  // The value part of an entry: space and quotes stripped.
  function Scalar(s: string): string { Trim(TrimSpace(s), IsQuote) }

  predicate IsFlow(val: string) { HasPrefix(val, "{") && HasSuffix(val, "}") }

  predicate IsKey(key: string) { key != "" && ' ' !in key }

  // One "key: value" of an inline map.
  function FlowStep(out: map<string, string>, key: string, part: string): map<string, string> {
    var kv := TrimSpace(part);
    if ':' !in kv then out
    else
      var k, v := TrimSpace(CutBefore(kv, ':')), Scalar(CutAfter(kv, ':'));
      if IsKey(k) then out[key + "." + k := v] else out
  }

  function Flow(out: map<string, string>, key: string, parts: seq<string>): map<string, string> {
    if parts == [] then out
    else FlowStep(Flow(out, key, parts[..|parts| - 1]), key, parts[|parts| - 1])
  }

  // What is read so far, and the key whose block is open.
  datatype State = State(out: map<string, string>, parent: string)

  function LineStep(st: State, raw: string): State {
    var line := TrimSpace(raw);
    if line == "" || HasPrefix(line, "#") || HasPrefix(line, "-") || ':' !in line then st
    else
      var key0, val := TrimSpace(CutBefore(line, ':')), Scalar(CutAfter(line, ':'));
      if !IsKey(key0) then st
      else
        var indented := HasPrefix(raw, " ") || HasPrefix(raw, "\t");
        var key := if indented && st.parent != "" then st.parent + "." + key0 else key0;
        if IsFlow(val) then State(Flow(st.out, key, Split(Trim(val, IsBrace), ',')), "")
        else State(st.out[key := val], if val == "" then key else "")
  }

  function Lines(st: State, lines: seq<string>): State {
    if lines == [] then st else LineStep(Lines(st, lines[..|lines| - 1]), lines[|lines| - 1])
  }

  const START := State(map[], "")

  function FlatYaml(text: string): map<string, string> { Lines(START, Split(text, '\n')).out }

  function KV(text: string): map<string, string> { FlatYaml(ReplaceEquals(text)) }

  // out[key] on a Go map: absent reads as the empty text.
  function Get(out: map<string, string>, key: string): string { if key in out then out[key] else "" }

  function IntOr(s: string, def: int): int {
    match Atoi(TrimSpace(TrimSpace(TrimSuffix(TrimSpace(s), "mb"))))
    case Some(v) => if v <= 0 then def else v
    case None => def
  }

  // ---------------------------------------------------------------- the code

  // The loop over the parts of an inline map.
  method ReadFlow(out0: map<string, string>, key: string, val: string) returns (out: map<string, string>)
    ensures out == Flow(out0, key, Split(Trim(val, IsBrace), ','))
  {
    out := out0;
    var parts := Split(Trim(val, IsBrace), ',');
    for i := 0 to |parts|
      invariant out == Flow(out0, key, parts[..i])
    {
      assert parts[..i + 1][..i] == parts[..i];
      var kv := TrimSpace(parts[i]);
      if ':' in kv {
        var k2, v2 := TrimSpace(CutBefore(kv, ':')), Trim(TrimSpace(CutAfter(kv, ':')), IsQuote);
        if k2 != "" && ' ' !in k2 {
          out := out[key + "." + k2 := v2];
        }
      }
    }
    assert parts[..|parts|] == parts;
  }

  // The body of the loop over the lines.
  method ReadLine(out0: map<string, string>, parent0: string, raw: string)
    returns (out: map<string, string>, parent: string)
    ensures State(out, parent) == LineStep(State(out0, parent0), raw)
  {
    out, parent := out0, parent0;
    var line := TrimSpace(raw);
    if line == "" || HasPrefix(line, "#") || HasPrefix(line, "-") {
      return;
    }
    var indented := HasPrefix(raw, " ") || HasPrefix(raw, "\t");
    if ':' !in line {
      return;
    }
    var key := TrimSpace(CutBefore(line, ':'));
    var val := Trim(TrimSpace(CutAfter(line, ':')), IsQuote);
    if key == "" || ' ' in key {
      return;
    }
    if indented && parent != "" {
      key := parent + "." + key;
    }
    if HasPrefix(val, "{") && HasSuffix(val, "}") {
      out := ReadFlow(out, key, val);
      parent := "";
      return;
    }
    out := out[key := val];
    parent := if val == "" then key else "";
  }

  /** parseFlatYAML */
  method ParseFlatYAML(text: string) returns (out: map<string, string>)
    ensures out == FlatYaml(text)
  {
    out := map[];
    var parent := "";
    var lines := Split(text, '\n');
    for i := 0 to |lines|
      invariant State(out, parent) == Lines(START, lines[..i])
    {
      assert lines[..i + 1][..i] == lines[..i];
      out, parent := ReadLine(out, parent, lines[i]);
    }
    assert lines[..|lines|] == lines;
  }

  /** parseKV */
  method ParseKV(text: string) returns (out: map<string, string>)
    ensures out == KV(text)
  {
    out := ParseFlatYAML(ReplaceEquals(text));
  }

  // ---------------------------------------------------------------- lines with a plain key

  lemma {:induction false} LinesAppend(st: State, a: seq<string>, b: seq<string>)
    ensures Lines(st, a + b) == Lines(Lines(st, a), b)
  {
    if b == [] {
      assert a + b == a;
    } else {
      var n := |b| - 1;
      assert (a + b)[..|a| + n] == a + b[..n];
      LinesAppend(st, a, b[..n]);
    }
  }

  // A key as the exporter writes them.
  predicate PlainKey(key: string) {
    key != "" && key[0] != '#' && key[0] != '-' && forall c | c in key :: !IsSpace(c) && c != ':' && c != '='
  }

  lemma Tightened(key: string, rest: string)
    requires PlainKey(key)
    ensures TrimSpace(key + ":" + rest) == key + ":" + TrimRight(rest, IsSpace)
  {
    TrimRightTail(key + ":", rest);
  }

  lemma {:induction false} TrimRightTail(head: string, tail: string)
    requires head != [] && !IsSpace(head[|head| - 1])
    ensures TrimRight(head + tail, IsSpace) == head + TrimRight(tail, IsSpace)
  {
    if tail == [] {
    } else {
      var n := |tail| - 1;
      assert (head + tail)[..|head| + n] == head + tail[..n];
      TrimRightTail(head, tail[..n]);
    }
  }

  // Trimming before and after taking the value off the line comes to trimming the value.
  lemma TrimRightFirst(s: string)
    ensures TrimSpace(TrimRight(s, IsSpace)) == TrimSpace(s)
  {
    TrimRightIdempotent(s);
    TrimSidesCommute(s);
    TrimSidesCommute(TrimRight(s, IsSpace));
  }

  lemma TrimRightIdempotent(s: string)
    ensures TrimRight(TrimRight(s, IsSpace), IsSpace) == TrimRight(s, IsSpace)
  {
    TrimRightEffect(s, IsSpace);
  }

  lemma {:induction false} TrimSidesCommute(s: string)
    ensures TrimRight(TrimLeft(s, IsSpace), IsSpace) == TrimLeft(TrimRight(s, IsSpace), IsSpace)
  {
    if s != [] {
      if IsSpace(s[0]) {
        TrimSidesCommute(s[1..]);
        TrimRightCons(s);
      } else {
        TrimRightTail([s[0]], s[1..]);
        assert [s[0]] + s[1..] == s;
      }
    }
  }

  lemma {:induction false} TrimRightCons(s: string)
    requires s != [] && IsSpace(s[0])
    ensures TrimLeft(TrimRight(s, IsSpace), IsSpace) == TrimLeft(TrimRight(s[1..], IsSpace), IsSpace)
  {
    var n := |s| - 1;
    if n > 0 && IsSpace(s[n]) {
      assert s[..n][1..] == s[1..][..n - 1] && s[1..][n - 1] == s[n];
      TrimRightCons(s[..n]);
    }
  }

  lemma PlainKeyEnds(key: string, rest: string)
    requires PlainKey(key)
    ensures
      var s := key + rest;
      s[0] == key[0] && !IsSpace(s[0]) && s[0] != '#' && s[0] != '-' && s[0] != ' ' && s[0] != '\t'
    ensures TrimSpace(key) == key && ':' !in key && IsKey(key)
  {
  }

  // How such a line falls apart.
  lemma PlainParts(key: string, text: string)
    requires PlainKey(key)
    ensures
      var line := TrimSpace(key + ": " + text);
      && line != "" && line[0] == key[0] && ':' in line
      && CutBefore(line, ':') == key && Scalar(CutAfter(line, ':')) == Scalar(text)
  {
    var rest := [' '] + text;
    assert key + ": " + text == key + ":" + rest;
    Tightened(key, rest);
    CutAt(key, ':', TrimRight(rest, IsSpace));
    TrimRightFirst(rest);
  }

  /** A line "key: value" with a plain key sets that key to the stripped value, whatever was read
      before it, unless the value is an inline map, which only sets keys below it. */
  lemma PlainLine(st: State, key: string, text: string)
    requires PlainKey(key)
    ensures
      var next, val := LineStep(st, key + ": " + text), Scalar(text);
      if IsFlow(val) then next == State(Flow(st.out, key, Split(Trim(val, IsBrace), ',')), "")
      else next == State(st.out[key := val], if val == "" then key else "")
  {
    PlainParts(key, text);
    PlainKeyEnds(key, ": " + text);
    var raw := key + ": " + text;
    assert raw == key + (": " + text);
    OtherPrefix(raw, " ");
    OtherPrefix(raw, "\t");
    OtherPrefix(TrimSpace(raw), "#");
    OtherPrefix(TrimSpace(raw), "-");
  }

  // An inline map under one key leaves every key alone that is not below it.
  lemma {:induction false} FlowKeeps(out: map<string, string>, key: string, parts: seq<string>, other: string)
    requires '.' !in other
    ensures Get(Flow(out, key, parts), other) == Get(out, other)
    ensures other in Flow(out, key, parts) <==> other in out
  {
    if parts != [] {
      FlowKeeps(out, key, parts[..|parts| - 1], other);
    }
  }

  // ---------------------------------------------------------------- what values can hold

  // No value holds the character.
  ghost predicate Free(out: map<string, string>, c: char) { forall key | key in out :: c !in out[key] }

  lemma ScalarChars(s: string, c: char)
    requires c !in s
    ensures c !in Scalar(s)
  {
    TrimEffect(s, IsSpace);
    TrimEffect(TrimSpace(s), IsQuote);
  }

  lemma {:induction false} FlowFree(out: map<string, string>, key: string, parts: seq<string>, c: char)
    requires Free(out, c) && forall part | part in parts :: c !in part
    ensures Free(Flow(out, key, parts), c)
  {
    if parts != [] {
      var n := |parts| - 1;
      assert parts[n] in parts;
      FlowFree(out, key, parts[..n], c);
      var kv := TrimSpace(parts[n]);
      TrimEffect(parts[n], IsSpace);
      if ':' in kv {
        ScalarChars(CutAfter(kv, ':'), c);
      }
    }
  }

  lemma LineFree(st: State, raw: string, c: char)
    requires Free(st.out, c) && c !in raw
    ensures Free(LineStep(st, raw).out, c)
  {
    var line := TrimSpace(raw);
    TrimEffect(raw, IsSpace);
    if ':' in line {
      var val := Scalar(CutAfter(line, ':'));
      ScalarChars(CutAfter(line, ':'), c);
      TrimEffect(val, IsBrace);
      var parts := Split(Trim(val, IsBrace), ',');
      SplitPieces(Trim(val, IsBrace), ',');
      FlowFree(st.out, TrimSpace(CutBefore(line, ':')), parts, c);
      FlowFree(st.out, st.parent + "." + TrimSpace(CutBefore(line, ':')), parts, c);
    }
  }

  lemma {:induction false} LinesFree(st: State, lines: seq<string>, c: char)
    requires Free(st.out, c) && forall line | line in lines :: c !in line
    ensures Free(Lines(st, lines).out, c)
  {
    if lines != [] {
      var n := |lines| - 1;
      LinesFree(st, lines[..n], c);
      LineFree(Lines(st, lines[..n]), lines[n], c);
    }
  }

  // ---------------------------------------------------------------- how large values can be

  ghost predicate Small(out: map<string, string>, n: nat) { forall key | key in out :: Bytes(out[key]) <= n }

  lemma ScalarSmall(s: string)
    ensures Bytes(Scalar(s)) <= Bytes(s)
  {
    BytesTrim(s, IsSpace);
    BytesTrim(TrimSpace(s), IsQuote);
  }

  lemma {:induction false} FlowSmall(out: map<string, string>, key: string, parts: seq<string>, n: nat)
    requires Small(out, n) && forall part | part in parts :: Bytes(part) <= n
    ensures Small(Flow(out, key, parts), n)
  {
    if parts != [] {
      var last := parts[|parts| - 1];
      assert last in parts;
      FlowSmall(out, key, parts[..|parts| - 1], n);
      var kv := TrimSpace(last);
      BytesTrim(last, IsSpace);
      if ':' in kv {
        BytesCutAfter(kv, ':');
        ScalarSmall(CutAfter(kv, ':'));
      }
    }
  }

  lemma LineSmall(st: State, raw: string, n: nat)
    requires Small(st.out, n) && Bytes(raw) <= n
    ensures Small(LineStep(st, raw).out, n)
  {
    var line := TrimSpace(raw);
    BytesTrim(raw, IsSpace);
    if ':' in line {
      var val := Scalar(CutAfter(line, ':'));
      BytesCutAfter(line, ':');
      ScalarSmall(CutAfter(line, ':'));
      BytesTrim(val, IsBrace);
      var parts := Split(Trim(val, IsBrace), ',');
      BytesSplit(Trim(val, IsBrace), ',');
      FlowSmall(st.out, TrimSpace(CutBefore(line, ':')), parts, n);
      FlowSmall(st.out, st.parent + "." + TrimSpace(CutBefore(line, ':')), parts, n);
    }
  }

  lemma {:induction false} LinesSmall(st: State, lines: seq<string>, n: nat)
    requires Small(st.out, n) && forall line | line in lines :: Bytes(line) <= n
    ensures Small(Lines(st, lines).out, n)
  {
    if lines != [] {
      var k := |lines| - 1;
      LinesSmall(st, lines[..k], n);
      LineSmall(Lines(st, lines[..k]), lines[k], n);
    }
  }

  /** No value read from a text is more than twice as large, "=" being read as ": ". */
  lemma ValueIsSmall(text: string, key: string)
    ensures Bytes(Get(KV(text), key)) <= 2 * Bytes(text)
  {
    var replaced := ReplaceEquals(text);
    BytesReplace(text);
    BytesSplit(replaced, '\n');
    LinesSmall(START, Split(replaced, '\n'), Bytes(replaced));
  }
}
