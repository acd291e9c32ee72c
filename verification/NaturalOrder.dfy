/** The order of imported test cases (backend/internal/handler/problem_import.go): a hand-written
    two-index comparison.  A text is a sequence of runes; comparing UTF-8 bytes and comparing runes
    give the same order. */
module NaturalOrder {
  import opened Ordering
  import opened Text

  // ---------------------------------------------------------------- the pieces the code uses

  // The leftmost digit, or the length.
  function FirstDigit(s: string): (i: nat)
    ensures i <= |s|
    ensures forall k | 0 <= k < i :: !IsDigit(s[k])
    ensures i < |s| ==> IsDigit(s[i])
  {
    if s == [] || IsDigit(s[0]) then 0 else 1 + FirstDigit(s[1..])
  }

  function DigitRun(s: string): (n: nat)
    ensures n <= |s|
    ensures forall k | 0 <= k < n :: IsDigit(s[k])
    ensures n < |s| ==> !IsDigit(s[n])
  {
    if s == [] || !IsDigit(s[0]) then 0 else 1 + DigitRun(s[1..])
  }

  predicate HasNumber(s: string) { FirstDigit(s) < |s| }

  // The end of the first (longest) run of digits: what the regular expression \d+ matches.
  function NumberEnd(s: string): (e: nat)
    requires HasNumber(s)
    ensures FirstDigit(s) < e <= |s|
  {
    FirstDigit(s) + DigitRun(s[FirstDigit(s)..])
  }

  // strconv.Atoi with its error ignored: out of range saturates.
  function Saturated(digits: string): (n: nat)
    requires AllDigits(digits)
    ensures n <= MAX_INT
  {
    if Value(digits) <= MAX_INT then Value(digits) else MAX_INT
  }

  function NumberAt(s: string): (n: nat)
    requires HasNumber(s)
    ensures n <= MAX_INT
  {
    Saturated(s[FirstDigit(s)..NumberEnd(s)])
  }

  // ---------------------------------------------------------------- the meaning

  // Lexicographic order, a proper prefix first.
  predicate LexLess(a: seq<int>, b: seq<int>) {
    b != [] && (a == [] || a[0] < b[0] || (a[0] == b[0] && LexLess(a[1..], b[1..])))
  }

  // What the comparison looks at: the numbers in order, ignoring the text before each, then the
  // runes after the last number, all of which come after any number.
  function NaturalKey(s: string): seq<int>
    decreases |s|
  {
    if s == [] then []
    else if HasNumber(s) then [NumberAt(s)] + NaturalKey(s[NumberEnd(s)..])
    else [MAX_INT + 1 + s[0] as int] + NaturalKey(s[1..])
  }

  predicate NaturalBefore(a: string, b: string) { LexLess(NaturalKey(a), NaturalKey(b)) }

  // Where one round of the comparison leaves off.
  function RoundEnd(s: string, i: nat): (e: nat)
    requires i < |s|
    ensures i < e <= |s|
  {
    if HasNumber(s[i..]) then i + NumberEnd(s[i..]) else i + 1
  }

  lemma KeyStep(s: string, i: nat, key: seq<int>)
    requires i < |s| && key == NaturalKey(s[i..])
    ensures key != [] && key[1..] == NaturalKey(s[RoundEnd(s, i)..])
    ensures key[0] == if HasNumber(s[i..]) then NumberAt(s[i..]) else MAX_INT + 1 + s[i] as int
  {
  }

  lemma LexHeads(a: seq<int>, b: seq<int>)
    requires a != [] && b != []
    ensures LexLess(a, b) <==> a[0] < b[0] || (a[0] == b[0] && LexLess(a[1..], b[1..]))
  {
  }

  /** The two-index loop decides exactly the lexicographic order of the keys. */
  method NaturalLess(a: string, b: string) returns (less: bool)
    ensures less <==> NaturalBefore(a, b)
  {
    var ai, bi := 0, 0;
    assert a[0..] == a && b[0..] == b;
    ghost var keyA, keyB := NaturalKey(a), NaturalKey(b);
    ghost var goal := LexLess(keyA, keyB);
    while ai < |a| && bi < |b|
      invariant 0 <= ai <= |a| && 0 <= bi <= |b|
      invariant keyA == NaturalKey(a[ai..]) && keyB == NaturalKey(b[bi..])
      invariant goal == LexLess(keyA, keyB)
      decreases |a| - ai
    {
      KeyStep(a, ai, keyA);
      KeyStep(b, bi, keyB);
      LexHeads(keyA, keyB);
      ghost var endA, endB := RoundEnd(a, ai), RoundEnd(b, bi);
      var restA, restB := a[ai..], b[bi..];
      if HasNumber(restA) && HasNumber(restB) {
        var x, y := NumberAt(restA), NumberAt(restB);
        if x != y {
          return x < y;
        }
        ai := ai + NumberEnd(restA);
        bi := bi + NumberEnd(restB);
      } else if HasNumber(restA) {
        return true;
      } else if HasNumber(restB) {
        return false;
      } else {
        if a[ai] != b[bi] {
          return a[ai] < b[bi];
        }
        ai := ai + 1;
        bi := bi + 1;
      }
      assert ai == endA && bi == endB;
      keyA, keyB := keyA[1..], keyB[1..];
    }
    return |a| - ai < |b| - bi;
  }

  // ---------------------------------------------------------------- a strict weak order

  lemma {:induction false} LexIrreflexive(a: seq<int>)
    ensures !LexLess(a, a)
  {
    if a != [] {
      LexIrreflexive(a[1..]);
    }
  }

  lemma {:induction false} LexTransitive(a: seq<int>, b: seq<int>, c: seq<int>)
    requires LexLess(a, b) && LexLess(b, c)
    ensures LexLess(a, c)
  {
    if a != [] && a[0] == b[0] == c[0] {
      LexTransitive(a[1..], b[1..], c[1..]);
    }
  }

  lemma {:induction false} LexTotal(a: seq<int>, b: seq<int>)
    ensures LexLess(a, b) || LexLess(b, a) || a == b
  {
    if a != [] && b != [] && a[0] == b[0] {
      LexTotal(a[1..], b[1..]);
    }
  }

  lemma LexNegativelyTransitive(a: seq<int>, b: seq<int>, c: seq<int>)
    requires !LexLess(a, b) && !LexLess(b, c)
    ensures !LexLess(a, c)
  {
  }

  /** naturalLess is a strict weak order; it cannot tell two names apart exactly when their keys agree. */
  lemma NaturalIsStrictWeakOrder()
    ensures StrictWeakOrder(NaturalBefore)
    ensures forall a, b :: Incomparable(NaturalBefore, a, b) <==> NaturalKey(a) == NaturalKey(b)
  {
    forall a: string, b: string, c: string
      ensures !NaturalBefore(a, a)
      ensures NaturalBefore(a, b) && NaturalBefore(b, c) ==> NaturalBefore(a, c)
      ensures !NaturalBefore(a, b) && !NaturalBefore(b, c) ==> !NaturalBefore(a, c)
      ensures Incomparable(NaturalBefore, a, b) <==> NaturalKey(a) == NaturalKey(b)
    {
      var x, y, z := NaturalKey(a), NaturalKey(b), NaturalKey(c);
      LexIrreflexive(x);
      LexTotal(x, y);
      if LexLess(x, y) && LexLess(y, z) {
        LexTransitive(x, y, z);
      }
      if !LexLess(x, y) && !LexLess(y, z) {
        LexNegativelyTransitive(x, y, z);
      }
    }
  }

  // ---------------------------------------------------------------- sortCases

  // A discovered case: the directory and base of its path without extension, and the file contents.
  datatype CaseKey = CaseKey(dir: string, base: string, input: string, answer: string)

  function Codes(s: string): seq<int> { seq(|s|, i requires 0 <= i < |s| => s[i] as int) }

  predicate CaseBefore(x: CaseKey, y: CaseKey) {
    if x.dir != y.dir then LexLess(Codes(x.dir), Codes(y.dir)) else NaturalBefore(x.base, y.base)
  }

  lemma CodesInjective(s: string, t: string)
    requires Codes(s) == Codes(t)
    ensures s == t
  {
    forall i | 0 <= i < |s|
      ensures s[i] == t[i]
    {
      assert Codes(s)[i] == Codes(t)[i];
    }
  }

  lemma CaseBeforeOf(x: CaseKey, y: CaseKey)
    ensures CaseBefore(x, y) <==>
            LexLess(Codes(x.dir), Codes(y.dir)) || (Codes(x.dir) == Codes(y.dir) && NaturalBefore(x.base, y.base))
  {
    if x.dir == y.dir {
      LexIrreflexive(Codes(x.dir));
    } else if Codes(x.dir) == Codes(y.dir) {
      CodesInjective(x.dir, y.dir);
    }
  }

  /** So is the comparator of sortCases: by directory, then naturally by base name. */
  lemma CaseBeforeIsStrictWeakOrder()
    ensures StrictWeakOrder(CaseBefore)
  {
    NaturalIsStrictWeakOrder();
    forall x: CaseKey, y: CaseKey, z: CaseKey
      ensures !CaseBefore(x, x)
      ensures CaseBefore(x, y) && CaseBefore(y, z) ==> CaseBefore(x, z)
      ensures !CaseBefore(x, y) && !CaseBefore(y, z) ==> !CaseBefore(x, z)
    {
      var a, b, c := Codes(x.dir), Codes(y.dir), Codes(z.dir);
      CaseBeforeOf(x, y);
      CaseBeforeOf(y, z);
      LexIrreflexive(a);
      LexTotal(a, b);
      LexTotal(b, c);
      if LexLess(a, b) && LexLess(b, c) {
        LexTransitive(a, b, c);
      }
      if LexLess(c, b) && LexLess(b, a) {
        LexTransitive(c, b, a);
      }
      if LexLess(a, c) && LexLess(c, a) {
        LexTransitive(a, c, a);
      }
    }
  }

  /** Sorting the discovered cases. */
  method SortCases(cases: seq<CaseKey>) returns (sorted: seq<CaseKey>)
    ensures IsSortOf(CaseBefore, cases, sorted)
  {
    CaseBeforeIsStrictWeakOrder();
    sorted := SortSlice(cases, CaseBefore);
  }
}
