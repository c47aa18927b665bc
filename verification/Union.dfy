/** Several archives' tile ids merged into one ascending stream, each id once and with how many archives hold it. */
module Union {
  import opened TileIds

  /** An id of the stream, and how many sources hold it. */
  datatype Held = Held(id: nat, sources: nat)

  /** Ascending, but not necessarily strictly. */
  ghost predicate Ascending(ids: seq<nat>) {
    forall i, j :: 0 <= i < j < |ids| ==> ids[i] <= ids[j]
  }

  /** Each source's ids, its chunks put together. */
  ghost function ListsOf(sources: seq<seq<seq<nat>>>): (lists: seq<seq<nat>>)
    ensures |lists| == |sources| && forall j :: 0 <= j < |sources| ==> lists[j] == Flat(sources[j])
  {
    seq(|sources|, j requires 0 <= j < |sources| => Flat(sources[j]))
  }

  /** How many of the lists hold an id. */
  ghost function Holders(lists: seq<seq<nat>>, id: nat): nat {
    if lists == [] then 0
    else Holders(lists[..|lists| - 1], id) + if id in lists[|lists| - 1] then 1 else 0
  }

  function IdsIn(held: seq<Held>): (ids: seq<nat>)
    ensures |ids| == |held| && forall k :: 0 <= k < |held| ==> ids[k] == held[k].id
  {
    if held == [] then [] else IdsIn(held[..|held| - 1]) + [held[|held| - 1].id]
  }

  lemma {:induction false} FlatFromFront<T>(chunks: seq<seq<T>>)
    requires chunks != []
    ensures Flat(chunks) == chunks[0] + Flat(chunks[1..])
  {
    var n := |chunks| - 1;
    if n > 0 {
      FlatFromFront(chunks[..n]);
      assert chunks[1..][..n - 1] == chunks[..n][1..];
    }
  }

  lemma HeadIsLeast(rest: seq<nat>)
    requires Ascending(rest) && rest != []
    ensures forall x: nat :: x in rest ==> rest[0] <= x
  {
  }

  lemma HeadIsPast(rest: seq<nat>, id: nat)
    requires Ascending(rest) && (forall x: nat :: x in rest ==> id <= x) && (rest != [] ==> rest[0] != id)
    ensures forall x: nat :: x in rest ==> id < x
  {
    if rest != [] {
      assert rest[0] in rest;
      HeadIsLeast(rest);
    }
  }

  /** One source's cursor: what is left of the chunk in hand, and the chunks still to come. */
  class Reader {
    var coming: seq<seq<nat>>
    var batch: seq<nat>
    var at: nat
    var done: bool

    constructor (chunks: seq<seq<nat>>)
      ensures !done && at <= |batch| && Rest() == Flat(chunks)
    {
      coming, batch, at, done := chunks, [], 0, false;
      new;
      assert [] + Flat(chunks) == Flat(chunks);
    }

    /** What it has not been read of yet. */
    ghost function Rest(): seq<nat>
      reads this
      requires at <= |batch|
    {
      batch[at..] + Flat(coming)
    }

    /** There is an unread id in hand, or it has ended. */
    ghost predicate Ready()
      reads this
    {
      at <= |batch| && if done then Rest() == [] else at < |batch|
    }

    method Fill()
      requires at <= |batch| && (done ==> Rest() == [])
      modifies this
      ensures Ready() && Rest() == old(Rest())
    {
      while !done && at >= |batch|
        invariant at <= |batch| && Rest() == old(Rest()) && (done ==> Rest() == [])
        decreases |coming|, !done
      {
        if |coming| == 0 {
          done := true;
        } else {
          FlatFromFront(coming);
          batch, at, coming := coming[0], 0, coming[1..];
        }
      }
    }

    /** Reads past every copy of an id it is sitting on. */
    method Pass(id: nat) returns (held: bool)
      requires Ready() && Ascending(Rest()) && forall x :: x in Rest() ==> id <= x
      modifies this
      ensures Ready() && Ascending(Rest())
      ensures held <==> id in old(Rest())
      ensures forall x: nat :: x in Rest() <==> x in old(Rest()) && id < x
      ensures |Rest()| <= |old(Rest())| && (held ==> |Rest()| < |old(Rest())|)
    {
      held := false;
      while !done && batch[at] == id
        invariant Ready() && Ascending(Rest())
        invariant held ==> id in old(Rest())
        invariant id in old(Rest()) <==> held || id in Rest()
        invariant forall x: nat :: x in Rest() ==> x in old(Rest())
        invariant forall x: nat :: x in old(Rest()) && x != id ==> x in Rest()
        invariant |Rest()| <= |old(Rest())| && (held ==> |Rest()| < |old(Rest())|)
        decreases |Rest()|
      {
        held := true;
        ghost var rest := Rest();
        assert rest[0] == id;
        at := at + 1;
        assert Rest() == rest[1..];
        assert forall x: nat :: x in rest <==> x == rest[0] || x in rest[1..];
        Fill();
      }
      assert !done ==> Rest()[0] == batch[at];
      HeadIsPast(Rest(), id);
    }
  }

  /** The cursors, as what is left to read of each. */
  ghost predicate AreAt(readers: seq<Reader>, rests: seq<seq<nat>>)
    reads readers
  {
    && |rests| == |readers|
    && forall j :: 0 <= j < |readers| ==> readers[j].Ready() && readers[j].Rest() == rests[j]
  }

  ghost predicate AreApart(readers: seq<Reader>) {
    forall i, j :: 0 <= i < j < |readers| ==> readers[i] != readers[j]
  }

  /** What is left of each source is its ids past `last`. */
  ghost predicate LeftPast(lists: seq<seq<nat>>, rests: seq<seq<nat>>, last: int) {
    && |rests| == |lists|
    && (forall j :: 0 <= j < |lists| ==> Ascending(rests[j]))
    && (forall j, x: nat :: 0 <= j < |lists| ==> (x in rests[j] <==> x in lists[j] && last < x))
  }

  ghost predicate InSome(lists: seq<seq<nat>>, id: nat) {
    exists j :: 0 <= j < |lists| && id in lists[j]
  }

  /** The stream so far: every id up to `last` that a source holds, once and in order, with how many hold it. */
  ghost predicate MergedTo(lists: seq<seq<nat>>, stream: seq<Held>, last: int) {
    && Climbs(IdsIn(stream))
    && (forall id: nat :: id in IdsIn(stream) <==> InSome(lists, id) && id <= last)
    && (forall k :: 0 <= k < |stream| ==> stream[k].sources == Holders(lists, stream[k].id))
  }

  lemma MergedOne(lists: seq<seq<nat>>, stream: seq<Held>, last: int, id: nat)
    requires MergedTo(lists, stream, last) && last < id && InSome(lists, id)
    requires forall x: nat :: last < x < id ==> !InSome(lists, x)
    ensures MergedTo(lists, stream + [Held(id, Holders(lists, id))], id)
  {
    var next := stream + [Held(id, Holders(lists, id))];
    assert next[..|stream|] == stream;
    assert IdsIn(next) == IdsIn(stream) + [id];
    hide InSome, Holders, IdsIn;
    ClimbsOneMore(IdsIn(stream), last, id);
  }

  lemma ClimbsOneMore(ids: seq<nat>, last: int, id: nat)
    requires Climbs(ids) && last < id && forall x: nat :: x in ids ==> x <= last
    ensures Climbs(ids + [id])
  {
    forall i | 0 <= i < |ids|
      ensures ids[i] < id
    {
      assert ids[i] in ids;
    }
  }

  /** The lowest id left in the first so many, if there is one. */
  ghost predicate IsLowest(lowest: Limit, rests: seq<seq<nat>>, k: nat)
    requires k <= |rests|
  {
    && (lowest.Infinity? ==> forall j :: 0 <= j < k ==> rests[j] == [])
    && (lowest.Until? ==> exists j :: 0 <= j < k && lowest.id in rests[j])
    && (lowest.Until? ==> forall j, x: nat :: 0 <= j < k && x in rests[j] ==> lowest.id <= x)
  }

  lemma LowestOfOneMore(lowest: Limit, rests: seq<seq<nat>>, k: nat)
    requires k < |rests| && IsLowest(lowest, rests, k) && Ascending(rests[k])
    ensures rests[k] == [] ==> IsLowest(lowest, rests, k + 1)
    ensures rests[k] != [] ==>
              IsLowest(if lowest.Allows(rests[k][0]) then Until(rests[k][0]) else lowest, rests, k + 1)
  {
    if rests[k] != [] {
      HeadIsLeast(rests[k]);
    }
    hide Ascending;
  }

  /** What a cursor sits on is the first of what is left to read. */
  lemma ReaderIsAt(readers: seq<Reader>, rests: seq<seq<nat>>, k: nat)
    requires AreAt(readers, rests) && k < |readers|
    ensures readers[k].done ==> rests[k] == []
    ensures !readers[k].done ==>
              readers[k].at < |readers[k].batch| && rests[k] != [] &&
              rests[k][0] == readers[k].batch[readers[k].at]
  {
    assert readers[k].Ready() && readers[k].Rest() == rests[k];
  }

  /** The lowest id any cursor sits on, if any has one left. */
  method Lowest(readers: seq<Reader>, ghost rests: seq<seq<nat>>) returns (lowest: Limit)
    requires AreAt(readers, rests) && forall j :: 0 <= j < |rests| ==> Ascending(rests[j])
    ensures IsLowest(lowest, rests, |rests|)
  {
    lowest := Infinity;
    assert |rests| == |readers|;
    hide AreAt, Ascending, Reader.Rest, Reader.Ready;
    for k := 0 to |readers|
      invariant IsLowest(lowest, rests, k)
    {
      ReaderIsAt(readers, rests, k);
      LowestOfOneMore(lowest, rests, k);
      hide IsLowest;
      if !readers[k].done {
        var id := readers[k].batch[readers[k].at];
        if lowest.Allows(id) {
          lowest := Until(id);
        }
      }
    }
  }

  /** One cursor moves; the others stay where they are. */
  method PassOne(readers: seq<Reader>, k: nat, id: nat, ghost rests: seq<seq<nat>>)
    returns (held: bool, ghost rest: seq<nat>)
    requires AreApart(readers) && AreAt(readers, rests) && k < |readers|
    requires Ascending(rests[k]) && forall x: nat :: x in rests[k] ==> id <= x
    modifies readers[k]
    ensures AreAt(readers, rests[k := rest])
    ensures held <==> id in rests[k]
    ensures Passed(rests[k], rest, id)
  {
    held := readers[k].Pass(id);
    rest := readers[k].Rest();
    hide Reader.Rest, Reader.Ready, Ascending;
  }

  /** What is left of a list once it has been read past an id. */
  ghost predicate Passed(rest: seq<nat>, after: seq<nat>, id: nat) {
    && Ascending(after)
    && (forall x: nat :: x in after <==> x in rest && id < x)
    && |after| <= |rest| && (id in rest ==> |after| < |rest|)
  }

  lemma AllPassed(lists: seq<seq<nat>>, rests: seq<seq<nat>>, after: seq<seq<nat>>, last: int, id: nat)
    requires LeftPast(lists, rests, last) && last < id && |after| == |rests|
    requires forall j :: 0 <= j < |rests| ==> Passed(rests[j], after[j], id)
    ensures LeftPast(lists, after, id)
  {
    hide Ascending;
    assert forall j :: 0 <= j < |lists| ==> Passed(rests[j], after[j], id);
  }

  lemma HeldByOneMore(lists: seq<seq<nat>>, k: nat, id: nat)
    requires k < |lists|
    ensures Holders(lists[..k + 1], id) == Holders(lists[..k], id) + if id in lists[k] then 1 else 0
  {
    assert lists[..k + 1][..k] == lists[..k];
  }

  /** Every cursor on an id moves past it; how many were on it is counted on the way. */
  method PassAll(readers: seq<Reader>, id: nat, ghost lists: seq<seq<nat>>, ghost rests: seq<seq<nat>>, ghost last: int)
    returns (holders: nat, ghost after: seq<seq<nat>>)
    requires AreApart(readers) && AreAt(readers, rests) && LeftPast(lists, rests, last) && last < id
    requires forall j, x: nat :: 0 <= j < |rests| && x in rests[j] ==> id <= x
    modifies readers
    ensures AreAt(readers, after) && LeftPast(lists, after, id) && holders == Holders(lists, id)
    ensures |after| == |rests| && forall j :: 0 <= j < |rests| ==> Passed(rests[j], after[j], id)
  {
    holders := 0;
    after := rests;
    assert lists[..0] == [];
    for k := 0 to |readers|
      invariant AreAt(readers, after) && |after| == |rests|
      invariant forall j :: k <= j < |rests| ==> after[j] == rests[j]
      invariant forall j :: 0 <= j < k ==> Passed(rests[j], after[j], id)
      invariant holders == Holders(lists[..k], id)
    {
      assert forall x: nat :: x in after[k] ==> id <= x;
      assert Ascending(rests[k]) && (id in rests[k] <==> id in lists[k]);
      HeldByOneMore(lists, k, id);
      hide *;
      var held;
      ghost var rest;
      held, rest := PassOne(readers, k, id, after);
      after := after[k := rest];
      if held {
        holders := holders + 1;
      }
    }
    assert lists[..|lists|] == lists;
    AllPassed(lists, rests, after, last, id);
  }

  /** How much is left to read. */
  ghost function Left(rests: seq<seq<nat>>): nat {
    if rests == [] then 0 else Left(rests[..|rests| - 1]) + |rests[|rests| - 1]|
  }

  /**
   The union of several sources' ids: whatever the chunks they come in, exactly
   the ids any of them holds, strictly ascending, each counted by how many do.
   */
  method UnionOfTileIds(sources: seq<seq<seq<nat>>>) returns (stream: seq<Held>)
    requires forall j :: 0 <= j < |sources| ==> Ascending(Flat(sources[j]))
    ensures Climbs(IdsIn(stream))
    ensures forall id: nat :: id in IdsIn(stream) <==> InSome(ListsOf(sources), id)
    ensures forall k :: 0 <= k < |stream| ==> stream[k].sources == Holders(ListsOf(sources), stream[k].id)
  {
    var readers := Open(sources);
    stream := Merge(readers, ListsOf(sources));
  }

  /** Yields the lowest id any cursor sits on until none has one left. */
  method Merge(readers: seq<Reader>, ghost lists: seq<seq<nat>>) returns (stream: seq<Held>)
    requires AreApart(readers) && AreAt(readers, lists) && forall j :: 0 <= j < |lists| ==> Ascending(lists[j])
    modifies readers
    ensures Climbs(IdsIn(stream))
    ensures forall id: nat :: id in IdsIn(stream) <==> InSome(lists, id)
    ensures forall k :: 0 <= k < |stream| ==> stream[k].sources == Holders(lists, stream[k].id)
  {
    stream := [];
    StartsMerged(lists);
    ghost var rests, last: int := lists, -1;
    var open := true;
    hide *;
    while open
      invariant AreAt(readers, rests) && LeftPast(lists, rests, last) && MergedTo(lists, stream, last)
      invariant forall j :: 0 <= j < |rests| ==> Ascending(rests[j])
      invariant !open ==> forall j :: 0 <= j < |rests| ==> rests[j] == []
      decreases open, Left(rests)
    {
      var lowest := Lowest(readers, rests);
      if lowest.Infinity? {
        open := false;
      } else {
        ghost var before := rests;
        NothingBelowLowest(lists, rests, last, lowest.id);
        var holders;
        holders, rests := PassAll(readers, lowest.id, lists, rests, last);
        MergedOne(lists, stream, last, lowest.id);
        LessLeft(before, rests, lowest.id);
        LeftAscends(lists, rests, lowest.id);
        stream := stream + [Held(lowest.id, holders)];
        last := lowest.id;
      }
    }
    AllMerged(lists, rests, stream, last);
  }

  lemma LeftAscends(lists: seq<seq<nat>>, rests: seq<seq<nat>>, last: int)
    requires LeftPast(lists, rests, last)
    ensures forall j :: 0 <= j < |rests| ==> Ascending(rests[j])
  {
  }

  /** Every source is read from its start. */
  method Open(sources: seq<seq<seq<nat>>>) returns (readers: seq<Reader>)
    ensures AreApart(readers) && forall j :: 0 <= j < |readers| ==> fresh(readers[j])
    ensures AreAt(readers, ListsOf(sources))
  {
    readers := [];
    ghost var lists := ListsOf(sources);
    assert |lists| == |sources| && forall k :: 0 <= k < |sources| ==> lists[k] == Flat(sources[k]);
    hide *;
    NoReaders();
    for k := 0 to |sources|
      invariant |readers| == k && AreApart(readers) && forall j :: 0 <= j < |readers| ==> fresh(readers[j])
      invariant AreAt(readers, lists[..k])
    {
      var reader := OpenOne(readers, lists[..k], sources[k]);
      assert lists[..k + 1] == lists[..k] + [lists[k]];
      readers := readers + [reader];
    }
    assert lists[..|sources|] == lists;
  }

  lemma NoReaders()
    ensures AreApart([]) && AreAt([], [])
  {
  }

  /** One more cursor, beside the others. */
  method OpenOne(readers: seq<Reader>, ghost rests: seq<seq<nat>>, chunks: seq<seq<nat>>) returns (reader: Reader)
    requires AreApart(readers) && AreAt(readers, rests)
    ensures fresh(reader) && AreApart(readers + [reader]) && AreAt(readers + [reader], rests + [Flat(chunks)])
  {
    hide Flat, AreAt, Reader.Ready, Reader.Rest;
    reader := new Reader(chunks);
    reader.Fill();
    assert reader !in readers;
    AtOneMore(readers, rests, reader, Flat(chunks));
  }

  lemma AtOneMore(readers: seq<Reader>, rests: seq<seq<nat>>, reader: Reader, rest: seq<nat>)
    requires AreAt(readers, rests) && reader.Ready() && reader.Rest() == rest
    ensures AreAt(readers + [reader], rests + [rest])
  {
    hide Reader.Ready, Reader.Rest;
  }

  lemma StartsMerged(lists: seq<seq<nat>>)
    requires forall j :: 0 <= j < |lists| ==> Ascending(lists[j])
    ensures LeftPast(lists, lists, -1) && MergedTo(lists, [], -1)
  {
  }

  lemma LessLeft(before: seq<seq<nat>>, after: seq<seq<nat>>, id: nat)
    requires |after| == |before|
    requires forall j :: 0 <= j < |before| ==> Passed(before[j], after[j], id)
    requires exists j :: 0 <= j < |before| && id in before[j]
    ensures Left(after) < Left(before)
  {
    assert forall j :: 0 <= j < |before| ==> Passed(before[j], after[j], id);
    LeftAtMost(before, after);
  }

  lemma NothingBelowLowest(lists: seq<seq<nat>>, rests: seq<seq<nat>>, last: int, lowest: nat)
    requires LeftPast(lists, rests, last)
    requires exists j :: 0 <= j < |rests| && lowest in rests[j]
    requires forall j, x: nat :: 0 <= j < |rests| && x in rests[j] ==> lowest <= x
    ensures last < lowest && InSome(lists, lowest)
    ensures forall x: nat :: last < x < lowest ==> !InSome(lists, x)
  {
    forall x: nat | last < x && InSome(lists, x)
      ensures lowest <= x
    {
      var j :| 0 <= j < |lists| && x in lists[j];
      assert x in rests[j];
    }
  }

  lemma AllMerged(lists: seq<seq<nat>>, rests: seq<seq<nat>>, stream: seq<Held>, last: int)
    requires LeftPast(lists, rests, last) && MergedTo(lists, stream, last)
    requires forall j :: 0 <= j < |rests| ==> rests[j] == []
    ensures Climbs(IdsIn(stream))
    ensures forall id: nat :: id in IdsIn(stream) <==> InSome(lists, id)
    ensures forall k :: 0 <= k < |stream| ==> stream[k].sources == Holders(lists, stream[k].id)
  {
    forall id: nat | InSome(lists, id)
      ensures id <= last
    {
      var j :| 0 <= j < |lists| && id in lists[j];
      assert id !in rests[j];
    }
  }

  /** Where every list is no longer and the one that was passed is shorter, less is left. */
  lemma {:induction false} LeftAtMost(before: seq<seq<nat>>, after: seq<seq<nat>>)
    requires |after| == |before| && forall j :: 0 <= j < |before| ==> |after[j]| <= |before[j]|
    ensures Left(after) <= Left(before)
    ensures (exists j :: 0 <= j < |before| && |after[j]| < |before[j]|) ==> Left(after) < Left(before)
  {
    if before != [] {
      LeftAtMost(before[..|before| - 1], after[..|before| - 1]);
    }
  }
}
