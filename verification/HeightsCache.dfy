/** The heights a stack has merged for its tiles, kept in memory and bounded by their total size. */
module HeightsCache {
  import opened Archive

  type Key = string

  /** Metres at one pixel, or no data. */
  type Height = Option<real>

  datatype Kept = Kept(key: Key, heights: seq<Height>, width: nat, contributors: nat) {
    /** Four bytes a height. */
    function Size(): nat {
      4 * |heights|
    }
  }

  /** Heights as they are handed to a caller, who may change them. */
  datatype Found = Found(heights: array<Height>, width: nat, contributors: nat)

  function Total(entries: seq<Kept>): nat {
    if entries == [] then 0 else Total(entries[..|entries| - 1]) + entries[|entries| - 1].Size()
  }

  ghost predicate OneEach(entries: seq<Kept>) {
    forall i, j :: 0 <= i < j < |entries| ==> entries[i].key != entries[j].key
  }

  /** Where a key is, or past the end. */
  function At(entries: seq<Kept>, key: Key): (i: nat)
    ensures i <= |entries|
    ensures i < |entries| ==> entries[i].key == key
    ensures forall k :: 0 <= k < i ==> entries[k].key != key
    decreases |entries|
  {
    if entries == [] then 0
    else
      var before := At(entries[..|entries| - 1], key);
      if before < |entries| - 1 then before
      else if entries[|entries| - 1].key == key then |entries| - 1 else |entries|
  }

  predicate Has(entries: seq<Kept>, key: Key) {
    At(entries, key) < |entries|
  }

  /** A key's entry put in place of its old one, or at the end if it has none. */
  function Put(entries: seq<Kept>, e: Kept): seq<Kept> {
    var i := At(entries, e.key);
    if i < |entries| then entries[i := e] else entries + [e]
  }

  /** A key's entry taken out and put at the end. */
  function Touched(entries: seq<Kept>, key: Key): seq<Kept>
    requires Has(entries, key)
  {
    var i := At(entries, key);
    entries[..i] + entries[i + 1..] + [entries[i]]
  }

  /** The first entries dropped, one by one, for as long as the rest is over the budget. */
  function Evicted(entries: seq<Kept>, budget: nat): seq<Kept> {
    if entries == [] || Total(entries) <= budget then entries else Evicted(entries[1..], budget)
  }

  lemma {:induction false} TotalAdds(a: seq<Kept>, b: seq<Kept>)
    ensures Total(a + b) == Total(a) + Total(b)
  {
    if b == [] {
      assert a + b == a;
    } else {
      var n := |b| - 1;
      TotalAdds(a, b[..n]);
      assert (a + b)[..|a| + n] == a + b[..n];
    }
  }

  lemma TotalWith(entries: seq<Kept>, i: nat, e: Kept)
    requires i < |entries|
    ensures Total(entries[i := e]) == Total(entries) - entries[i].Size() + e.Size()
    ensures Total(entries[..i] + entries[i + 1..]) == Total(entries) - entries[i].Size()
  {
    var a, b := entries[..i], entries[i + 1..];
    assert entries == a + [entries[i]] + b && entries[i := e] == a + [e] + b;
    TotalAdds(a + [entries[i]], b);
    TotalAdds(a, [entries[i]]);
    TotalAdds(a + [e], b);
    TotalAdds(a, [e]);
    TotalAdds(a, b);
    assert Total([entries[i]]) == entries[i].Size() && Total([e]) == e.Size();
  }

  lemma TotalOfSuffix(entries: seq<Kept>, m: nat, n: nat)
    requires m <= n <= |entries|
    ensures Total(entries[n..]) <= Total(entries[m..])
  {
    assert entries[m..] == entries[m..n] + entries[n..];
    TotalAdds(entries[m..n], entries[n..]);
  }

  /** What is evicted is the shortest prefix that brings the rest within the budget. */
  lemma {:induction false} EvictedIsShortest(entries: seq<Kept>, budget: nat) returns (n: nat)
    ensures n <= |entries| && Evicted(entries, budget) == entries[n..] && Total(entries[n..]) <= budget
    ensures forall m :: 0 <= m < n ==> budget < Total(entries[m..])
    decreases |entries|
  {
    if entries == [] || Total(entries) <= budget {
      n := 0;
      assert entries[0..] == entries;
    } else {
      var rest := EvictedIsShortest(entries[1..], budget);
      n := rest + 1;
      assert entries[1..][rest..] == entries[n..];
      forall m | 0 <= m < n
        ensures budget < Total(entries[m..])
      {
        if m == 0 {
          assert entries[0..] == entries;
        } else {
          assert entries[1..][m - 1..] == entries[m..];
        }
      }
    }
  }

  /** An entry survives exactly when it and all that come after it fit. */
  lemma SurvivesIffTheRestFits(entries: seq<Kept>, budget: nat, i: nat)
    requires OneEach(entries) && i < |entries|
    ensures entries[i] in Evicted(entries, budget) <==> Total(entries[i..]) <= budget
  {
    var n := EvictedIsShortest(entries, budget);
    if n <= i {
      assert entries[n..][i - n] == entries[i];
      TotalOfSuffix(entries, n, i);
    } else {
      forall k | n <= k < |entries|
        ensures entries[k] != entries[i]
      {
        assert entries[k].key != entries[i].key;
      }
    }
  }

  /** A new key that fits survives its own insertion. */
  lemma NewKeySurvives(entries: seq<Kept>, e: Kept, budget: nat)
    requires OneEach(entries) && !Has(entries, e.key) && e.Size() <= budget
    ensures e in Evicted(Put(entries, e), budget)
  {
    var put := Put(entries, e);
    assert put[|entries|..] == [e];
    assert OneEach(put);
    SurvivesIffTheRestFits(put, budget, |entries|);
  }

  /**
   One that was there keeps its old place, and survives exactly when it fits together with all that
   come after it there.
   */
  lemma OldKeySurvivesIff(entries: seq<Kept>, e: Kept, budget: nat)
    requires OneEach(entries) && Has(entries, e.key)
    ensures var i := At(entries, e.key);
            e in Evicted(Put(entries, e), budget) <==> e.Size() + Total(entries[i + 1..]) <= budget
  {
    var i := At(entries, e.key);
    var put := Put(entries, e);
    assert put[i..] == [e] + entries[i + 1..];
    TotalAdds([e], entries[i + 1..]);
    assert Total([e]) == e.Size();
    assert OneEach(put);
    SurvivesIffTheRestFits(put, budget, i);
  }

  /** So setting the oldest key again can evict just what was set, though it would fit alone. */
  lemma OldestCanEvictItself()
    ensures var a, b, a' := Kept("a", [None], 1, 1), Kept("b", [None], 1, 1), Kept("a", [None, None], 2, 1);
            a'.Size() <= 8 && Evicted(Put([a, b], a'), 8) == [b]
  {
    var a, b, a' := Kept("a", [None], 1, 1), Kept("b", [None], 1, 1), Kept("a", [None, None], 2, 1);
    assert At([a, b], "a") == 0;
    assert Put([a, b], a') == [a', b];
    assert Total([a']) == 8 && Total([b]) == 4;
    assert [a', b] == [a'] + [b];
    TotalAdds([a'], [b]);
    assert [a', b][1..] == [b];
  }

  datatype Op = Get(key: Key) | Set(value: Kept) | Clear

  /** The entries after one call. */
  function After(entries: seq<Kept>, op: Op, budget: nat): seq<Kept> {
    match op
    case Get(key) => if Has(entries, key) then Touched(entries, key) else entries
    case Set(e) => if e.Size() > budget then entries else Evicted(Put(entries, e), budget)
    case Clear => []
  }

  function AfterAll(ops: seq<Op>, budget: nat): seq<Kept> {
    if ops == [] then [] else After(AfterAll(ops[..|ops| - 1], budget), ops[|ops| - 1], budget)
  }

  /** The value last set for a key, of those that fit at all, since it was last cleared. */
  function LastSet(ops: seq<Op>, budget: nat, key: Key): Option<Kept> {
    if ops == [] then None
    else
      var op := ops[|ops| - 1];
      if op.Set? && op.value.key == key && op.value.Size() <= budget then Some(op.value)
      else if op.Clear? then None
      else LastSet(ops[..|ops| - 1], budget, key)
  }

  ghost predicate Sound(entries: seq<Kept>, budget: nat) {
    OneEach(entries) && Total(entries) <= budget
  }

  lemma TouchingKeeps(entries: seq<Kept>, key: Key)
    requires OneEach(entries) && Has(entries, key)
    ensures OneEach(Touched(entries, key)) && Total(Touched(entries, key)) == Total(entries)
    ensures multiset(Touched(entries, key)) == multiset(entries)
  {
    MovedLast(entries, At(entries, key));
    MovedIsApart(entries, At(entries, key));
  }

  lemma MovedLast(entries: seq<Kept>, i: nat)
    requires i < |entries|
    ensures Total(entries[..i] + entries[i + 1..] + [entries[i]]) == Total(entries)
    ensures multiset(entries[..i] + entries[i + 1..] + [entries[i]]) == multiset(entries)
  {
    hide Total;
    var a, e, b := entries[..i], entries[i], entries[i + 1..];
    assert a + [e] + b == entries;
    MovedTotal(a, e, b);
    MovedHoldsTheSame(a, e, b);
  }

  lemma MovedTotal(a: seq<Kept>, e: Kept, b: seq<Kept>)
    ensures Total(a + b + [e]) == Total(a + [e] + b)
  {
    hide *;
    TotalAdds(a, b);
    TotalAdds(a + b, [e]);
    TotalAdds(a, [e]);
    TotalAdds(a + [e], b);
  }

  lemma MovedHoldsTheSame(a: seq<Kept>, e: Kept, b: seq<Kept>)
    ensures multiset(a + b + [e]) == multiset(a + [e] + b)
  {
  }

  lemma MovedIsApart(entries: seq<Kept>, i: nat)
    requires OneEach(entries) && i < |entries|
    ensures OneEach(entries[..i] + entries[i + 1..] + [entries[i]])
  {
    var moved := entries[..i] + entries[i + 1..] + [entries[i]];
    var n := |entries| - 1;
    forall k, l | 0 <= k < l < |moved|
      ensures moved[k].key != moved[l].key
    {
      var a, b := if k < i then k else k + 1, if l < i then l else if l < n then l + 1 else i;
      assert moved[k] == entries[a] && moved[l] == entries[b] && a != b;
      assert a < b ==> entries[a].key != entries[b].key;
      assert b < a ==> entries[b].key != entries[a].key;
    }
  }

  lemma EvictingKeeps(entries: seq<Kept>, budget: nat)
    requires OneEach(entries)
    ensures Sound(Evicted(entries, budget), budget)
    ensures forall e :: e in Evicted(entries, budget) ==> e in entries
  {
    var n := EvictedIsShortest(entries, budget);
  }

  /** A call keeps the budget, and every entry is what was last set for its key. */
  lemma CallKeeps(entries: seq<Kept>, op: Op, budget: nat)
    requires Sound(entries, budget)
    ensures Sound(After(entries, op, budget), budget)
    ensures forall e :: e in After(entries, op, budget) ==> (op.Set? && e == op.value && e.Size() <= budget) ||
                                                            (e in entries && !op.Clear? &&
                                                             (op.Set? && op.value.Size() <= budget ==>
                                                              e.key != op.value.key))
  {
    if op.Get? && Has(entries, op.key) {
      TouchingKeeps(entries, op.key);
      forall e | e in Touched(entries, op.key)
        ensures e in entries
      {
        assert e in multiset(Touched(entries, op.key));
      }
    } else if op.Set? && op.value.Size() <= budget {
      PuttingKeeps(entries, op.value);
      EvictingKeeps(Put(entries, op.value), budget);
    }
  }

  lemma PuttingKeeps(entries: seq<Kept>, e: Kept)
    requires OneEach(entries)
    ensures OneEach(Put(entries, e))
    ensures forall k :: k in Put(entries, e) ==> k == e || (k in entries && k.key != e.key)
  {
    var i, put := At(entries, e.key), Put(entries, e);
    forall j | 0 <= j < |put|
      ensures put[j] == e || (put[j] in entries && put[j].key != e.key)
    {
      if j != i && j < |entries| {
        assert put[j] == entries[j];
      }
    }
  }

  /** Over every run of calls the budget is kept, and a hit is the value last set for its key. */
  lemma {:induction false} HitIsLastSet(ops: seq<Op>, budget: nat)
    ensures Sound(AfterAll(ops, budget), budget)
    ensures forall e :: e in AfterAll(ops, budget) ==> LastSet(ops, budget, e.key) == Some(e)
  {
    if ops != [] {
      HitIsLastSet(ops[..|ops| - 1], budget);
      CallKeeps(AfterAll(ops[..|ops| - 1], budget), ops[|ops| - 1], budget);
      hide After, Sound;
    }
  }

  method Copied(heights: seq<Height>) returns (copy: array<Height>)
    ensures fresh(copy) && copy[..] == heights
  {
    copy := new Height[|heights|](k requires 0 <= k < |heights| => heights[k]);
  }

  class HeightsCache {
    const maxBytes: nat
    var entries: seq<Kept>
    var bytes: nat
    var hits: nat
    var misses: nat

    /** The bytes counted are those held, within the budget. */
    ghost predicate Valid()
      reads this
    {
      Sound(entries, maxBytes) && bytes == Total(entries)
    }

    constructor (maxBytes: nat)
      ensures Valid() && this.maxBytes == maxBytes && entries == [] && hits == misses == 0
    {
      this.maxBytes := maxBytes;
      entries, bytes, hits, misses := [], 0, 0, 0;
    }

    predicate Enabled() {
      maxBytes > 0
    }

    /** A key's heights, as a copy of the caller's own; asking for them makes them the last to go. */
    method Get(key: Key) returns (found: Option<Found>)
      requires Valid()
      modifies this
      ensures Valid() && entries == if maxBytes > 0 then After(old(entries), Op.Get(key), maxBytes) else old(entries)
      ensures found.Some? <==> maxBytes > 0 && Has(old(entries), key)
      ensures found.Some? ==> var e := old(entries)[At(old(entries), key)];
                              fresh(found.value.heights) && found.value.heights[..] == e.heights &&
                              found.value.width == e.width && found.value.contributors == e.contributors
      ensures hits == old(hits) + (if found.Some? then 1 else 0)
      ensures misses == old(misses) + if maxBytes > 0 && found.None? then 1 else 0
    {
      if !Enabled() {
        return None;
      }
      var i := At(entries, key);
      if i == |entries| {
        misses := misses + 1;
        return None;
      }
      var e, touched := entries[i], entries[..i] + entries[i + 1..] + [entries[i]];
      TouchingKeeps(entries, key);
      assert touched == Touched(entries, key) && After(entries, Op.Get(key), maxBytes) == touched;
      hide After, Touched, Total, OneEach, Has;
      var copy := Copied(e.heights);
      entries, hits := touched, hits + 1;
      found := Some(Found(copy, e.width, e.contributors));
    }

    /**
     Keeps a copy of some heights, dropping the oldest until all of it fits; heights that would not fit
     alone are not kept.
     */
    method Set(key: Key, heights: array<Height>, width: nat, contributors: nat)
      requires Valid()
      modifies this`entries, this`bytes
      ensures Valid()
      ensures entries ==
              if maxBytes > 0 then After(old(entries), Op.Set(Kept(key, heights[..], width, contributors)), maxBytes)
              else old(entries)
    {
      if !Enabled() {
        return;
      }
      var e := Kept(key, heights[..], width, contributors);
      if e.Size() > maxBytes {
        return;
      }
      var i := At(entries, key);
      PuttingKeeps(entries, e);
      EvictingKeeps(Put(entries, e), maxBytes);
      if i < |entries| {
        TotalWith(entries, i, e);
        bytes := bytes - entries[i].Size();
        entries := entries[i := e];
      } else {
        TotalAdds(entries, [e]);
        entries := entries + [e];
      }
      assert Total([e]) == e.Size();
      bytes := bytes + e.Size();
      Evict();
    }

    method Evict()
      requires bytes == Total(entries)
      modifies this`entries, this`bytes
      ensures entries == Evicted(old(entries), maxBytes) && bytes == Total(entries)
    {
      while bytes > maxBytes
        invariant bytes == Total(entries) && Evicted(entries, maxBytes) == Evicted(old(entries), maxBytes)
        decreases |entries|
      {
        assert entries == [entries[0]] + entries[1..];
        TotalAdds([entries[0]], entries[1..]);
        assert Total([entries[0]]) == entries[0].Size();
        bytes := bytes - entries[0].Size();
        entries := entries[1..];
      }
    }

    /** Forgets everything, without disturbing the counters. */
    method Clear()
      modifies this`entries, this`bytes
      ensures Valid() && entries == After(old(entries), Op.Clear, maxBytes)
    {
      entries, bytes := [], 0;
    }
  }
}
