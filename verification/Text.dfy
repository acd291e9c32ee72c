/** The string functions of Go's standard library that the package importer is built from. */
module Text {
  import opened Options

  // unicode.IsSpace
  predicate IsSpace(c: char) {
    var n := c as int;
    || 9 <= n <= 13 || n == 32 || n == 0x85 || n == 0xA0 || n == 0x1680 || 0x2000 <= n <= 0x200A
    || n == 0x2028 || n == 0x2029 || n == 0x202F || n == 0x205F || n == 0x3000
  }

  predicate IsQuote(c: char) { c == '"' || c == '\'' }

  predicate IsBrace(c: char) { c == '{' || c == '}' }

  // ---------------------------------------------------------------- trimming

  function TrimLeft(s: string, drop: char -> bool): string {
    if s != [] && drop(s[0]) then TrimLeft(s[1..], drop) else s
  }

  function TrimRight(s: string, drop: char -> bool): string {
    if s != [] && drop(s[|s| - 1]) then TrimRight(s[..|s| - 1], drop) else s
  }

  // strings.Trim
  function Trim(s: string, drop: char -> bool): string { TrimRight(TrimLeft(s, drop), drop) }

  function TrimSpace(s: string): string { Trim(s, IsSpace) }

  // Neither end would be dropped.
  predicate Tight(s: string, drop: char -> bool) { s == [] || (!drop(s[0]) && !drop(s[|s| - 1])) }

  lemma {:induction false} TrimLeftEffect(s: string, drop: char -> bool)
    ensures
      var t := TrimLeft(s, drop);
      |t| <= |s| && (t == [] || !drop(t[0])) && (forall c | c in t :: c in s) && (|t| == |s| ==> t == s)
  {
    if s != [] && drop(s[0]) {
      TrimLeftEffect(s[1..], drop);
    }
  }

  lemma {:induction false} TrimRightEffect(s: string, drop: char -> bool)
    ensures
      var t := TrimRight(s, drop);
      && |t| <= |s| && (t == [] || !drop(t[|t| - 1])) && (forall c | c in t :: c in s) && (|t| == |s| ==> t == s)
      && (t != [] ==> t[0] == s[0])
  {
    if s != [] && drop(s[|s| - 1]) {
      TrimRightEffect(s[..|s| - 1], drop);
    }
  }

  /** Trimming leaves a text alone exactly when neither end would be dropped; it adds nothing, and
      what it leaves is tight. */
  lemma TrimEffect(s: string, drop: char -> bool)
    ensures Tight(Trim(s, drop), drop) && forall c | c in Trim(s, drop) :: c in s
    ensures Trim(s, drop) == s <==> Tight(s, drop)
    ensures |Trim(s, drop)| <= |s|
    ensures |Trim(s, drop)| == |s| ==> Trim(s, drop) == s
  {
    TrimLeftEffect(s, drop);
    TrimRightEffect(TrimLeft(s, drop), drop);
  }

  predicate HasPrefix(s: string, prefix: string) { |prefix| <= |s| && s[..|prefix|] == prefix }

  predicate HasSuffix(s: string, suffix: string) { |suffix| <= |s| && s[|s| - |suffix|..] == suffix }

  function TrimSuffix(s: string, suffix: string): string {
    if HasSuffix(s, suffix) then s[..|s| - |suffix|] else s
  }

  // A text's first character rules out every prefix that begins with another one.
  lemma OtherPrefix(s: string, prefix: string)
    requires prefix != "" && (s == "" || s[0] != prefix[0])
    ensures !HasPrefix(s, prefix)
  {
  }

  // A text's last character rules out every suffix that ends in another one.
  lemma OtherSuffix(s: string, suffix: string)
    requires suffix != "" && s != "" && s[|s| - 1] != suffix[|suffix| - 1]
    ensures !HasSuffix(s, suffix)
  {
  }

  lemma TrimSuffixOf(s: string, suffix: string)
    ensures HasSuffix(s + suffix, suffix) && TrimSuffix(s + suffix, suffix) == s
  {
  }

  // ---------------------------------------------------------------- splitting

  // The first place of a character, or the length.
  function Index(s: string, c: char): (i: nat)
    ensures i <= |s| && c !in s[..i] && (i < |s| ==> s[i] == c) && (i < |s| <==> c in s)
  {
    if s == [] || s[0] == c then 0
    else
      var i := 1 + Index(s[1..], c);
      assert s[..i] == [s[0]] + s[1..][..i - 1] && s == [s[0]] + s[1..];
      i
  }

  // strings.Cut at one character: what comes before it, and what comes after.
  function CutBefore(s: string, c: char): string { s[..Index(s, c)] }

  function CutAfter(s: string, c: char): string
    requires c in s
  {
    s[Index(s, c) + 1..]
  }

  lemma {:induction false} IndexAt(before: string, c: char, after: string)
    requires c !in before
    ensures Index(before + [c] + after, c) == |before|
  {
    if before != [] {
      assert (before + [c] + after)[1..] == before[1..] + [c] + after;
      IndexAt(before[1..], c, after);
    }
  }

  lemma CutAt(before: string, c: char, after: string)
    requires c !in before
    ensures c in before + [c] + after
    ensures CutBefore(before + [c] + after, c) == before && CutAfter(before + [c] + after, c) == after
  {
    IndexAt(before, c, after);
  }

  // strings.Split at one character.
  function Split(s: string, c: char): seq<string>
    decreases |s|
  {
    if c in s then [CutBefore(s, c)] + Split(CutAfter(s, c), c) else [s]
  }

  lemma {:induction false} SplitAppend(a: string, c: char, b: string)
    ensures Split(a + [c] + b, c) == Split(a, c) + Split(b, c)
    decreases |a|
  {
    var s := a + [c] + b;
    if c in a {
      var i := Index(a, c);
      assert s == a[..i] + [c] + (a[i + 1..] + [c] + b);
      CutAt(a[..i], c, a[i + 1..] + [c] + b);
      assert CutBefore(s, c) == CutBefore(a, c) && CutAfter(s, c) == CutAfter(a, c) + [c] + b;
      SplitAppend(CutAfter(a, c), c, b);
      assert Split(s, c) == [CutBefore(a, c)] + Split(CutAfter(a, c) + [c] + b, c);
    } else {
      CutAt(a, c, b);
    }
  }

  // The pieces hold no separator and nothing that was not there.
  lemma {:induction false} SplitPieces(s: string, c: char)
    ensures forall piece, x | piece in Split(s, c) && x in piece :: x != c && x in s
    decreases |s|
  {
    if c in s {
      SplitPieces(CutAfter(s, c), c);
    }
  }

  // strings.ReplaceAll(s, "=", ": ")
  function ReplaceEquals(s: string): string {
    if s == [] then [] else (if s[0] == '=' then ": " else [s[0]]) + ReplaceEquals(s[1..])
  }

  lemma {:induction false} ReplaceAppend(a: string, b: string)
    ensures ReplaceEquals(a + b) == ReplaceEquals(a) + ReplaceEquals(b)
  {
    if a == [] {
      assert a + b == b;
    } else {
      assert (a + b)[1..] == a[1..] + b;
      ReplaceAppend(a[1..], b);
    }
  }

  lemma {:induction false} ReplaceEffect(s: string)
    ensures '=' !in ReplaceEquals(s)
    ensures '=' !in s ==> ReplaceEquals(s) == s
    ensures '\n' in ReplaceEquals(s) <==> '\n' in s
  {
    if s != [] {
      ReplaceEffect(s[1..]);
    }
  }

  // ---------------------------------------------------------------- sizes

  // What a character takes in UTF-8.
  function CharBytes(c: char): (n: nat)
    ensures 1 <= n <= 4
  {
    var code := c as int;
    if code < 0x80 then 1 else if code < 0x800 then 2 else if code < 0x1_0000 then 3 else 4
  }

  function Bytes(s: string): nat { if s == [] then 0 else CharBytes(s[0]) + Bytes(s[1..]) }

  lemma {:induction false} BytesBounds(s: string)
    ensures |s| <= Bytes(s) <= 4 * |s|
  {
    if s != [] {
      BytesBounds(s[1..]);
    }
  }

  lemma {:induction false} BytesAppend(a: string, b: string)
    ensures Bytes(a + b) == Bytes(a) + Bytes(b)
  {
    if a == [] {
      assert a + b == b;
    } else {
      assert (a + b)[1..] == a[1..] + b;
      BytesAppend(a[1..], b);
    }
  }

  // A part is not larger than the whole.
  lemma BytesOfPart(s: string, i: nat, j: nat)
    requires i <= j <= |s|
    ensures Bytes(s[i..j]) <= Bytes(s)
  {
    assert s == s[..i] + (s[i..j] + s[j..]);
    BytesInside(s[..i], s[i..j], s[j..]);
  }

  lemma BytesInside(before: string, part: string, after: string)
    ensures Bytes(part) <= Bytes(before + (part + after))
  {
    BytesAppend(before, part + after);
    BytesAppend(part, after);
  }

  lemma {:induction false} BytesTrimLeft(s: string, drop: char -> bool)
    ensures Bytes(TrimLeft(s, drop)) <= Bytes(s)
  {
    if s != [] && drop(s[0]) {
      BytesTrimLeft(s[1..], drop);
    }
  }

  lemma {:induction false} BytesTrimRight(s: string, drop: char -> bool)
    ensures Bytes(TrimRight(s, drop)) <= Bytes(s)
  {
    if s != [] && drop(s[|s| - 1]) {
      BytesTrimRight(s[..|s| - 1], drop);
      BytesOfPart(s, 0, |s| - 1);
    }
  }

  lemma BytesTrim(s: string, drop: char -> bool)
    ensures Bytes(Trim(s, drop)) <= Bytes(s)
  {
    BytesTrimLeft(s, drop);
    BytesTrimRight(TrimLeft(s, drop), drop);
  }

  lemma BytesCutAfter(s: string, c: char)
    requires c in s
    ensures Bytes(CutAfter(s, c)) <= Bytes(s)
  {
    BytesOfPart(s, Index(s, c) + 1, |s|);
  }

  lemma {:induction false} BytesSplit(s: string, c: char)
    ensures forall piece | piece in Split(s, c) :: Bytes(piece) <= Bytes(s)
    decreases |s|
  {
    if c in s {
      BytesSplit(CutAfter(s, c), c);
      BytesCutAfter(s, c);
      BytesOfPart(s, 0, Index(s, c));
    }
  }

  lemma {:induction false} BytesReplace(s: string)
    ensures Bytes(ReplaceEquals(s)) <= 2 * Bytes(s)
  {
    if s != [] {
      var first := if s[0] == '=' then ": " else [s[0]];
      BytesAppend(first, ReplaceEquals(s[1..]));
      BytesReplace(s[1..]);
      assert first[1..] == [] || first[1..] == " ";
    }
  }

  // ---------------------------------------------------------------- numbers

  const MAX_INT := 0x7FFF_FFFF_FFFF_FFFF
  const MIN_INT := -0x8000_0000_0000_0000

  predicate IsDigit(c: char) { '0' <= c <= '9' }

  predicate AllDigits(s: string) { forall c | c in s :: IsDigit(c) }

  // %d of a number that is not negative
  function Dec(n: nat): (s: string)
    ensures s != [] && AllDigits(s)
  {
    var digit := ['0' + (n % 10) as char];
    if n < 10 then digit else Dec(n / 10) + digit
  }

  // %d
  function DecInt(n: int): string { if n < 0 then "-" + Dec(-n) else Dec(n) }

  function Value(digits: string): nat
    requires AllDigits(digits)
  {
    if digits == [] then 0
    else
      var last := digits[|digits| - 1];
      assert last in digits;
      10 * Value(digits[..|digits| - 1]) + (last as int - '0' as int)
  }

  // strconv.Atoi
  function Atoi(s: string): Option<int> {
    var digits := if s != [] && (s[0] == '-' || s[0] == '+') then s[1..] else s;
    if digits == [] || !AllDigits(digits) then None
    else
      var value: int := Value(digits);
      var n := if s[0] == '-' then -value else value;
      if MIN_INT <= n <= MAX_INT then Some(n) else None
  }

  lemma {:induction false} ValueOfDec(n: nat)
    ensures Value(Dec(n)) == n
  {
    if n >= 10 {
      ValueOfDec(n / 10);
    }
  }

  /** Printing and parsing a number are inverse. */
  lemma AtoiOfDecInt(n: int)
    requires MIN_INT <= n <= MAX_INT
    ensures Atoi(DecInt(n)) == Some(n)
  {
    if n < 0 {
      ValueOfDec(-n);
      assert DecInt(n)[1..] == Dec(-n);
    } else {
      ValueOfDec(n);
      assert Dec(n)[0] in Dec(n);
    }
  }

  lemma DecInjective(m: nat, n: nat)
    requires Dec(m) == Dec(n)
    ensures m == n
  {
    ValueOfDec(m);
  }
}
