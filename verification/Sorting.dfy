/** The library's sort, as what it is relied on for: the same values, in ascending order. */
module Sorting {

  ghost predicate TotalOrder<T(!new)>(leq: (T, T) -> bool) {
    && (forall a, b :: leq(a, b) || leq(b, a))
    && (forall a, b, c :: leq(a, b) && leq(b, c) ==> leq(a, c))
  }

  ghost predicate Ascends<T>(s: seq<T>, leq: (T, T) -> bool) {
    forall i, j :: 0 <= i < j < |s| ==> leq(s[i], s[j])
  }

  function Insert<T>(s: seq<T>, x: T, leq: (T, T) -> bool): seq<T> {
    if s == [] || leq(s[|s| - 1], x) then s + [x]
    else Insert(s[..|s| - 1], x, leq) + [s[|s| - 1]]
  }

  function Sort<T>(s: seq<T>, leq: (T, T) -> bool): seq<T> {
    if s == [] then [] else Insert(Sort(s[..|s| - 1], leq), s[|s| - 1], leq)
  }

  lemma {:induction false} InsertHolds<T>(s: seq<T>, x: T, leq: (T, T) -> bool)
    ensures multiset(Insert(s, x, leq)) == multiset(s) + multiset{x}
  {
    if s != [] && !leq(s[|s| - 1], x) {
      InsertHolds(s[..|s| - 1], x, leq);
      assert s == s[..|s| - 1] + [s[|s| - 1]];
    }
  }

  lemma FromEither<T>(inserted: seq<T>, rest: seq<T>, x: T, i: nat)
    requires multiset(inserted) == multiset(rest) + multiset{x} && i < |inserted|
    ensures inserted[i] == x || inserted[i] in rest
  {
    assert inserted[i] in multiset(inserted);
  }

  lemma {:induction false} InsertAscends<T(!new)>(s: seq<T>, x: T, leq: (T, T) -> bool)
    requires TotalOrder(leq) && Ascends(s, leq)
    ensures Ascends(Insert(s, x, leq), leq)
  {
    if s != [] && !leq(s[|s| - 1], x) {
      var rest, last := s[..|s| - 1], s[|s| - 1];
      InsertAscends(rest, x, leq);
      InsertHolds(rest, x, leq);
      var inserted := Insert(rest, x, leq);
      forall i | 0 <= i < |inserted|
        ensures leq(inserted[i], last)
      {
        FromEither(inserted, rest, x, i);
      }
    }
  }

  lemma {:induction false} SortHolds<T>(s: seq<T>, leq: (T, T) -> bool)
    ensures multiset(Sort(s, leq)) == multiset(s)
  {
    if s != [] {
      var rest, last := s[..|s| - 1], s[|s| - 1];
      SortHolds(rest, leq);
      InsertHolds(Sort(rest, leq), last, leq);
      assert s == rest + [last];
    }
  }

  lemma {:induction false} SortAscends<T(!new)>(s: seq<T>, leq: (T, T) -> bool)
    requires TotalOrder(leq)
    ensures Ascends(Sort(s, leq), leq)
  {
    if s != [] {
      SortAscends(s[..|s| - 1], leq);
      InsertAscends(Sort(s[..|s| - 1], leq), s[|s| - 1], leq);
    }
  }

  lemma SortSorts<T(!new)>(s: seq<T>, leq: (T, T) -> bool)
    requires TotalOrder(leq)
    ensures Ascends(Sort(s, leq), leq)
    ensures multiset(Sort(s, leq)) == multiset(s)
  {
    SortHolds(s, leq);
    SortAscends(s, leq);
  }

  ghost predicate NoRepeats<T>(s: seq<T>) {
    forall i, j :: 0 <= i < j < |s| ==> s[i] != s[j]
  }

  lemma {:induction false} CountedOnce<T>(s: seq<T>, x: T)
    requires NoRepeats(s)
    ensures multiset(s)[x] <= 1
  {
    if s != [] {
      var rest, last := s[..|s| - 1], s[|s| - 1];
      CountedOnce(rest, x);
      assert s == rest + [last];
      assert last !in rest;
      assert last !in multiset(rest);
    }
  }

  lemma CountedTwice<T>(s: seq<T>, i: nat, j: nat)
    requires i < j < |s| && s[i] == s[j]
    ensures multiset(s)[s[i]] >= 2
  {
    assert s == s[..j] + ([s[j]] + s[j + 1..]);
    assert s[i] == s[..j][i];
    assert s[i] in multiset(s[..j]);
  }

  /** Sorting a list without repeats gives one without repeats. */
  lemma SortKeepsApart<T(!new)>(s: seq<T>, leq: (T, T) -> bool)
    requires NoRepeats(s)
    ensures NoRepeats(Sort(s, leq))
  {
    SortHolds(s, leq);
    var t := Sort(s, leq);
    forall i, j | 0 <= i < j < |t|
      ensures t[i] != t[j]
    {
      CountedOnce(s, t[i]);
      if t[i] == t[j] {
        CountedTwice(t, i, j);
      }
    }
  }

  lemma SortHasTheSame<T>(s: seq<T>, leq: (T, T) -> bool, x: T)
    ensures x in Sort(s, leq) <==> x in s
  {
    SortHolds(s, leq);
    assert x in s <==> x in multiset(s);
    assert x in Sort(s, leq) <==> x in multiset(Sort(s, leq));
  }
}
