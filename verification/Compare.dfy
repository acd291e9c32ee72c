/** The default output comparison (backend/pkg/judge/judge_cases.go): a streaming scan that must
    mean the same as splitting both byte strings on whitespace runs. */
module Compare {

  type byte = x: int | 0 <= x < 256

  predicate IsSpaceByte(c: byte) {
    // ' ' '\t' '\n' '\r' '\v' '\f'
    c == 32 || c == 9 || c == 10 || c == 13 || c == 11 || c == 12
  }

  // ---------------------------------------------------------------- split and compare

  // The length of the leading run of non-space bytes.
  function TokenLength(s: seq<byte>): (n: nat)
    ensures n <= |s|
  {
    if s == [] || IsSpaceByte(s[0]) then 0 else 1 + TokenLength(s[1..])
  }

  // The fields of a byte string: its maximal runs of non-space bytes, in order.
  function Fields(s: seq<byte>): seq<seq<byte>>
    decreases |s|
  {
    if s == [] then []
    else if IsSpaceByte(s[0]) then Fields(s[1..])
    else
      var n := TokenLength(s);
      [s[..n]] + Fields(s[n..])
  }

  predicate AllNonSpace(s: seq<byte>) {
    forall c | c in s :: !IsSpaceByte(c)
  }

  lemma {:induction false} TokenLengthIs(s: seq<byte>, n: nat)
    requires n <= |s| && AllNonSpace(s[..n])
    requires n < |s| ==> IsSpaceByte(s[n])
    ensures TokenLength(s) == n
  {
    if n > 0 {
      TokenLengthIs(s[1..], n - 1);
    }
  }

  // Bytes i.. up to a token end at i + n form the first field.
  lemma FirstField(s: seq<byte>, n: nat)
    requires 0 < n <= |s| && AllNonSpace(s[..n])
    requires n < |s| ==> IsSpaceByte(s[n])
    ensures Fields(s) == [s[..n]] + Fields(s[n..])
  {
    TokenLengthIs(s, n);
  }

  lemma {:induction false} TokenLengthAtLeast(s: seq<byte>, n: nat)
    requires n <= |s| && AllNonSpace(s[..n])
    ensures TokenLength(s) >= n
    ensures AllNonSpace(s[..TokenLength(s)])
    ensures TokenLength(s) < |s| ==> IsSpaceByte(s[TokenLength(s)])
  {
    if s != [] && !IsSpaceByte(s[0]) {
      TokenLengthAtLeast(s[1..], if n > 0 then n - 1 else 0);
    }
  }

  // ---------------------------------------------------------------- the scan

  // The first fields differ because a mismatch, or a one-sided end, shows up after a common part.
  lemma FieldsDiffer(a: seq<byte>, b: seq<byte>, n: nat)
    requires n <= |a| && n <= |b| && a[..n] == b[..n] && AllNonSpace(a[..n])
    requires n < |a| && !IsSpaceByte(a[n])
    requires n == |b| || IsSpaceByte(b[n]) || a[n] != b[n]
    requires a != [] && b != [] && !IsSpaceByte(a[0]) && !IsSpaceByte(b[0])
    ensures Fields(a) != Fields(b)
  {
    assert a[..n + 1] == a[..n] + [a[n]];
    TokenLengthAtLeast(a, n + 1);
    var x := a[..TokenLength(a)];
    assert x[n] == a[n];
  }

  // From i in a and j in b, the next n bytes agree and none is a space.
  ghost predicate Common(a: seq<byte>, i: nat, b: seq<byte>, j: nat, n: nat) {
    && i + n <= |a| && j + n <= |b|
    && (n > 0 ==> a[i + n - 1] == b[j + n - 1] && !IsSpaceByte(a[i + n - 1]) && Common(a, i, b, j, n - 1))
  }

  predicate AtTokenEnd(s: seq<byte>, i: nat)
    requires i <= |s|
  {
    i == |s| || IsSpaceByte(s[i])
  }

  lemma {:induction false} CommonPrefix(a: seq<byte>, i: nat, b: seq<byte>, j: nat, n: nat)
    requires Common(a, i, b, j, n)
    ensures a[i..][..n] == b[j..][..n] && AllNonSpace(a[i..][..n])
    ensures a[i..][n..] == a[i + n..] && b[j..][n..] == b[j + n..]
  {
    if n > 0 {
      CommonPrefix(a, i, b, j, n - 1);
    }
  }

  lemma TokensMatch(a: seq<byte>, i: nat, b: seq<byte>, j: nat, n: nat)
    requires Common(a, i, b, j, n) && n > 0
    requires AtTokenEnd(a, i + n) && AtTokenEnd(b, j + n)
    ensures Fields(a[i..]) == Fields(b[j..]) <==> Fields(a[i + n..]) == Fields(b[j + n..])
  {
    CommonPrefix(a, i, b, j, n);
    FirstField(a[i..], n);
    FirstField(b[j..], n);
    var x, y := Fields(a[i + n..]), Fields(b[j + n..]);
    assert Fields(a[i..])[1..] == x && Fields(b[j..])[1..] == y;
  }

  lemma TokensDiffer(a: seq<byte>, i: nat, b: seq<byte>, j: nat, n: nat)
    requires Common(a, i, b, j, n)
    requires n == 0 ==> !AtTokenEnd(a, i) && !AtTokenEnd(b, j)
    requires !AtTokenEnd(a, i + n) || !AtTokenEnd(b, j + n)
    requires AtTokenEnd(a, i + n) || AtTokenEnd(b, j + n) || a[i + n] != b[j + n]
    ensures Fields(a[i..]) != Fields(b[j..])
  {
    CommonPrefix(a, i, b, j, n);
    if !AtTokenEnd(a, i + n) {
      FieldsDiffer(a[i..], b[j..], n);
    } else {
      FieldsDiffer(b[j..], a[i..], n);
    }
  }

  // The loop over one whitespace run.
  method SkipSpaces(s: seq<byte>, from: nat) returns (i: nat)
    requires from <= |s|
    ensures from <= i <= |s| && (i < |s| ==> !IsSpaceByte(s[i]))
    ensures Fields(s[i..]) == Fields(s[from..])
  {
    i := from;
    while i < |s| && IsSpaceByte(s[i])
      invariant from <= i <= |s|
      invariant Fields(s[i..]) == Fields(s[from..])
    {
      i := i + 1;
    }
  }

  // The loop over one token of both strings.
  method MatchToken(a: seq<byte>, fromA: nat, b: seq<byte>, fromB: nat) returns (i: nat, j: nat, same: bool)
    requires fromA < |a| && !IsSpaceByte(a[fromA]) && fromB < |b| && !IsSpaceByte(b[fromB])
    ensures fromA <= i <= |a| && fromB <= j <= |b|
    ensures !same ==> Fields(a[fromA..]) != Fields(b[fromB..])
    ensures same ==> fromA < i && (Fields(a[fromA..]) == Fields(b[fromB..]) <==> Fields(a[i..]) == Fields(b[j..]))
  {
    i, j := fromA, fromB;
    while i < |a| && j < |b| && !IsSpaceByte(a[i]) && !IsSpaceByte(b[j])
      invariant fromA <= i && i - fromA == j - fromB
      invariant Common(a, fromA, b, fromB, i - fromA)
    {
      if a[i] != b[j] {
        TokensDiffer(a, fromA, b, fromB, i - fromA);
        return i, j, false;
      }
      i := i + 1;
      j := j + 1;
    }
    assert i < |a| && j < |b| ==> AtTokenEnd(a, i) || AtTokenEnd(b, j);
    if (i < |a| && !IsSpaceByte(a[i])) || (j < |b| && !IsSpaceByte(b[j])) {
      TokensDiffer(a, fromA, b, fromB, i - fromA);
      return i, j, false;
    }
    TokensMatch(a, fromA, b, fromB, i - fromA);
    return i, j, true;
  }

  /** The streaming comparison is exactly equality of the two field sequences, for all bytes. */
  method EqualTokens(a: seq<byte>, b: seq<byte>) returns (same: bool)
    ensures same <==> Fields(a) == Fields(b)
  {
    var i, j := 0, 0;
    while true
      invariant 0 <= i <= |a| && 0 <= j <= |b|
      invariant Fields(a) == Fields(b) <==> Fields(a[i..]) == Fields(b[j..])
      decreases |a| - i
    {
      i := SkipSpaces(a, i);
      j := SkipSpaces(b, j);
      if i == |a| || j == |b| {
        return i == |a| && j == |b|;
      }
      var matched;
      i, j, matched := MatchToken(a, i, b, j);
      if !matched {
        return false;
      }
    }
  }

  /** The whole check: raw equality first, which never accepts more than the fields do. */
  method DiffCase(output: seq<byte>, answer: seq<byte>) returns (accepted: bool)
    ensures accepted <==> Fields(output) == Fields(answer)
  {
    if output == answer {
      return true;
    }
    accepted := EqualTokens(output, answer);
  }

  // ---------------------------------------------------------------- the reference of the test

  function Joined(fields: seq<seq<byte>>): seq<byte> {
    if fields == [] then []
    else if |fields| == 1 then fields[0]
    else fields[0] + [32] + Joined(fields[1..])
  }

  // Fields still to come, after a text already written.
  function Glue(written: seq<byte>, fields: seq<seq<byte>>): seq<byte> {
    if written == [] then Joined(fields)
    else if fields == [] then written
    else written + [32] + Joined(fields)
  }

  // What a joiner in the middle of `s` still has to produce.
  function Pending(written: seq<byte>, inToken: bool, s: seq<byte>): seq<byte> {
    if inToken then Glue(written + s[..TokenLength(s)], Fields(s[TokenLength(s)..])) else Glue(written, Fields(s))
  }

  lemma PendingStep(written: seq<byte>, inToken: bool, s: seq<byte>)
    requires s != [] && (inToken ==> written != [])
    ensures IsSpaceByte(s[0]) ==> Pending(written, inToken, s) == Pending(written, false, s[1..])
    ensures !IsSpaceByte(s[0]) ==>
              Pending(written, inToken, s) ==
              Pending(written + (if !inToken && written != [] then [32] else []) + [s[0]], true, s[1..])
  {
    if IsSpaceByte(s[0]) {
      assert written + s[..0] == written && s[0..] == s;
    } else {
      var n, t := TokenLength(s), s[1..];
      if inToken {
        assert written + s[..n] == written + [] + [s[0]] + t[..n - 1];
      } else {
        assert written + [32] + s[..n] == written + [32] + [s[0]] + t[..n - 1];
        assert s[..n] == [] + [] + [s[0]] + t[..n - 1];
      }
    }
  }

  /** The byte-at-a-time joiner the test compares against writes the fields separated by one space. */
  method JoinFields(b: seq<byte>) returns (out: seq<byte>)
    ensures out == Joined(Fields(b))
  {
    out := [];
    var inToken := false;
    for i := 0 to |b|
      invariant inToken ==> out != []
      invariant Pending(out, inToken, b[i..]) == Joined(Fields(b))
    {
      PendingStep(out, inToken, b[i..]);
      var c := b[i];
      if IsSpaceByte(c) {
        inToken := false;
      } else {
        ghost var was := out;
        if !inToken && out != [] {
          out := out + [32];
        }
        assert out == was + (if !inToken && was != [] then [32] else []);
        out := out + [c];
        inToken := true;
      }
    }
  }

  ghost predicate IsFieldList(fields: seq<seq<byte>>) {
    forall f | f in fields :: f != [] && AllNonSpace(f)
  }

  lemma {:induction false} FieldsAreFields(s: seq<byte>)
    ensures IsFieldList(Fields(s))
    decreases |s|
  {
    if s != [] {
      var n := TokenLength(s);
      TokenLengthAtLeast(s, 0);
      FieldsAreFields(if IsSpaceByte(s[0]) then s[1..] else s[n..]);
    }
  }

  /** Splitting what was joined gives the fields back. */
  lemma {:induction false} SplitJoined(fields: seq<seq<byte>>)
    requires IsFieldList(fields)
    ensures Fields(Joined(fields)) == fields
  {
    if fields != [] {
      var f, s := fields[0], Joined(fields);
      assert f in fields && IsFieldList(fields[1..]);
      assert s[..|f|] == f;
      FirstField(s, |f|);
      if |fields| == 1 {
      } else {
        SplitJoined(fields[1..]);
      }
    }
  }

  /** Comparing the joined texts, as the reference does, is comparing the fields. */
  lemma JoinedReference(a: seq<byte>, b: seq<byte>)
    ensures Joined(Fields(a)) == Joined(Fields(b)) <==> Fields(a) == Fields(b)
  {
    FieldsAreFields(a);
    FieldsAreFields(b);
    SplitJoined(Fields(a));
    SplitJoined(Fields(b));
  }
}
