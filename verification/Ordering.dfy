/** What Go's sort.Slice and sort.SliceStable promise of a comparator that is a strict weak order,
    and when that promise determines the result. */
module Ordering {

  ghost predicate StrictWeakOrder<T(!new)>(less: (T, T) -> bool) {
    && (forall x :: !less(x, x))
    && (forall x, y, z :: less(x, y) && less(y, z) ==> less(x, z))
    && (forall x, y, z :: !less(x, y) && !less(y, z) ==> !less(x, z))
  }

  ghost predicate Incomparable<T>(less: (T, T) -> bool, x: T, y: T) {
    !less(x, y) && !less(y, x)
  }

  ghost predicate Sorted<T>(less: (T, T) -> bool, s: seq<T>) {
    forall i, j | 0 <= i < j < |s| :: !less(s[j], s[i])
  }

  // A possible outcome of sorting s.
  ghost predicate IsSortOf<T>(less: (T, T) -> bool, s: seq<T>, t: seq<T>) {
    multiset(t) == multiset(s) && Sorted(less, t)
  }

  // No element occurs twice, and the comparator tells any two apart.
  ghost predicate Distinguishes<T>(less: (T, T) -> bool, m: multiset<T>) {
    && (forall x | x in m :: m[x] == 1)
    && (forall x, y | x in m && y in m && x != y :: !Incomparable(less, x, y))
  }

  function Insert<T>(less: (T, T) -> bool, x: T, s: seq<T>): seq<T> {
    if s == [] || less(x, s[0]) then [x] + s else [s[0]] + Insert(less, x, s[1..])
  }

  function Sort<T>(less: (T, T) -> bool, s: seq<T>): seq<T> {
    if s == [] then [] else Insert(less, s[|s| - 1], Sort(less, s[..|s| - 1]))
  }

  lemma {:induction false} InsertKeeps<T>(less: (T, T) -> bool, x: T, s: seq<T>)
    ensures multiset(Insert(less, x, s)) == multiset(s) + multiset{x}
  {
    if s != [] && !less(x, s[0]) {
      assert s == [s[0]] + s[1..];
      InsertKeeps(less, x, s[1..]);
    }
  }

  ghost predicate NothingBelow<T>(less: (T, T) -> bool, s: seq<T>, x: T) {
    forall y | y in s :: !less(y, x)
  }

  lemma PrependSorted<T>(less: (T, T) -> bool, x: T, s: seq<T>)
    requires Sorted(less, s) && NothingBelow(less, s, x)
    ensures Sorted(less, [x] + s)
  {
  }

  lemma SortedSplit<T>(less: (T, T) -> bool, s: seq<T>)
    requires Sorted(less, s) && s != []
    ensures Sorted(less, s[1..]) && NothingBelow(less, s[1..], s[0])
  {
  }

  lemma {:induction false} InsertSorts<T(!new)>(less: (T, T) -> bool, x: T, s: seq<T>)
    requires StrictWeakOrder(less) && Sorted(less, s)
    ensures Sorted(less, Insert(less, x, s))
  {
    if s != [] {
      SortedSplit(less, s);
      if less(x, s[0]) {
      } else {
        InsertSorts(less, x, s[1..]);
        InsertKeeps(less, x, s[1..]);
        var t := Insert(less, x, s[1..]);
        forall y | y in t
          ensures !less(y, s[0])
        {
          assert y in multiset(t);
        }
        PrependSorted(less, s[0], t);
      }
    }
  }

  lemma {:induction false} SortSorts<T(!new)>(less: (T, T) -> bool, s: seq<T>)
    requires StrictWeakOrder(less)
    ensures IsSortOf(less, s, Sort(less, s))
  {
    if s != [] {
      var n := |s| - 1;
      SortSorts(less, s[..n]);
      InsertSorts(less, s[n], Sort(less, s[..n]));
      InsertKeeps(less, s[n], Sort(less, s[..n]));
      assert s == s[..n] + [s[n]];
    }
  }

  /** The library call.  Nothing more is promised, in particular no order among incomparable elements. */
  method SortSlice<T(!new)>(s: seq<T>, less: (T, T) -> bool) returns (t: seq<T>)
    requires StrictWeakOrder(less)
    ensures IsSortOf(less, s, t)
  {
    SortSorts(less, s);
    t := Sort(less, s);
  }

  lemma SameMembers<T>(s: seq<T>, t: seq<T>)
    requires multiset(s) == multiset(t)
    ensures |s| == |t| && forall x :: x in s <==> x in t
  {
    assert forall x :: x in s <==> x in multiset(s);
  }

  lemma TailMembers<T>(s: seq<T>)
    requires s != []
    ensures multiset(s[1..]) == multiset(s) - multiset{s[0]}
  {
    assert s == [s[0]] + s[1..];
  }

  lemma DistinguishesRest<T>(less: (T, T) -> bool, m: multiset<T>, x: T)
    requires Distinguishes(less, m)
    ensures Distinguishes(less, m - multiset{x})
  {
  }

  lemma SameHead<T>(less: (T, T) -> bool, s: seq<T>, t: seq<T>)
    requires multiset(s) == multiset(t) && Sorted(less, s) && Sorted(less, t)
    requires Distinguishes(less, multiset(s)) && s != []
    ensures |s| == |t| && s[0] == t[0]
  {
    assert s[0] in multiset(s) && t[0] in multiset(s);
  }

  /** When the comparator tells the elements apart, any two outcomes of sorting are the same
      sequence: neither the initial order nor an unstable algorithm matters. */
  lemma {:induction false} SortIsUnique<T>(less: (T, T) -> bool, s: seq<T>, t: seq<T>)
    requires multiset(s) == multiset(t) && Sorted(less, s) && Sorted(less, t)
    requires Distinguishes(less, multiset(s))
    ensures s == t
  {
    if s == [] {
    } else {
      SameHead(less, s, t);
      TailMembers(s);
      TailMembers(t);
      DistinguishesRest(less, multiset(s), s[0]);
      SortedSplit(less, s);
      SortedSplit(less, t);
      SortIsUnique(less, s[1..], t[1..]);
    }
  }

  predicate NoRepeats<T(==)>(s: seq<T>) { forall i, j | 0 <= i < j < |s| :: s[i] != s[j] }

  lemma {:induction false} NoRepeatsCounts<T>(s: seq<T>, x: T)
    requires NoRepeats(s) && x in s
    ensures multiset(s)[x] == 1
  {
    assert s == [s[0]] + s[1..];
    if x == s[0] {
    } else {
      NoRepeatsCounts(s[1..], x);
    }
  }

  lemma TwiceCounts<T>(s: seq<T>, i: nat, j: nat)
    requires i < j < |s| && s[i] == s[j]
    ensures multiset(s)[s[i]] >= 2
  {
    assert s == s[..j] + [s[j]] + s[j + 1..];
  }

  lemma PermutedNoRepeats<T>(s: seq<T>, t: seq<T>)
    requires multiset(s) == multiset(t) && NoRepeats(s)
    ensures NoRepeats(t)
  {
    SameMembers(s, t);
    forall i, j | 0 <= i < j < |t|
      ensures t[i] != t[j]
    {
      NoRepeatsCounts(s, t[i]);
      if t[i] == t[j] {
        TwiceCounts(t, i, j);
      }
    }
  }

  lemma SameMultiset<T>(s: seq<T>, t: seq<T>)
    requires NoRepeats(s) && NoRepeats(t) && forall x :: x in s <==> x in t
    ensures multiset(s) == multiset(t)
  {
    forall x
      ensures multiset(s)[x] == multiset(t)[x]
    {
      if x in s {
        NoRepeatsCounts(s, x);
        NoRepeatsCounts(t, x);
      }
    }
  }

  // The same element taken out of two permuted sequences.
  lemma RemoveBoth<T>(a: seq<T>, b: seq<T>, i: nat)
    requires a != [] && multiset(a) == multiset(b) && i < |b| && b[i] == a[|a| - 1]
    ensures multiset(a[..|a| - 1]) == multiset(b[..i] + b[i + 1..])
  {
    var n := |a| - 1;
    assert a == a[..n] + [a[n]];
    var front, back := b[..i], b[i + 1..];
    assert b == front + [b[i]] + back;
    assert multiset(a[..n]) == multiset(a) - multiset{a[n]};
  }
}
