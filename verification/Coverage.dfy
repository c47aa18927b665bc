/**
 What a bake is to write, and when a half-written archive covers it so far:
 everything it addresses is right, and nothing up to a tile id is missing.
 */
module Coverage {
  import opened Archive
  import opened TileIds

  /**
   One bake: the ascending ids its sources hold, which of them are asked for, and
   the merge that answers one tile or nothing. The merge is deterministic.
   */
  datatype Job = Job(ids: seq<nat>, from: nat, to: Limit, selects: nat -> bool, merge: nat -> Option<Bytes>) {
    ghost predicate Valid() {
      Climbs(ids)
    }

    predicate Asked(id: nat) {
      from <= id && to.Allows(id) && selects(id)
    }

    /** What is to be stored at an id. */
    function TileFor(id: nat): Option<Bytes> {
      if Asked(id) then merge(id) else None
    }

    /** An id of the stream that gets a tile. */
    ghost predicate Wanted(id: nat) {
      id in ids && TileFor(id).Some?
    }

    /** No tile the merge answers is empty. */
    ghost predicate NoEmptyTiles() {
      forall id: nat :: merge(id).Some? ==> merge(id).value != []
    }
  }

  /** The tiles a bake of some ids writes, in order. */
  function Baked(job: Job, ids: seq<nat>): seq<Tile> {
    if ids == [] then []
    else
      var rest, id := Baked(job, ids[..|ids| - 1]), ids[|ids| - 1];
      if job.TileFor(id).Some? then rest + [Tile(id, job.TileFor(id).value)] else rest
  }

  /** The ids of a list up to and including one. */
  function UpTo(ids: seq<nat>, last: int): seq<nat> {
    if ids == [] then []
    else if ids[|ids| - 1] <= last then ids
    else UpTo(ids[..|ids| - 1], last)
  }

  /** What a bake has written once everything up to `last` has been dealt with. */
  function BakedTo(job: Job, last: int): seq<Tile> {
    Baked(job, UpTo(job.ids, last))
  }

  lemma {:induction false} UpToHolds(ids: seq<nat>, last: int)
    requires Climbs(ids)
    ensures var n := |UpTo(ids, last)|;
            && n <= |ids| && UpTo(ids, last) == ids[..n]
            && (forall i :: 0 <= i < n ==> ids[i] <= last)
            && (forall i :: n <= i < |ids| ==> last < ids[i])
  {
    if ids != [] && ids[|ids| - 1] > last {
      UpToHolds(ids[..|ids| - 1], last);
    }
  }

  /** Ids that get no tile add nothing. */
  lemma {:induction false} NothingBaked(job: Job, ids: seq<nat>, more: seq<nat>)
    requires forall id :: id in more ==> job.TileFor(id).None?
    ensures Baked(job, ids + more) == Baked(job, ids)
  {
    if more == [] {
      assert ids + more == ids;
    } else {
      var n := |more| - 1;
      assert (ids + more)[..|ids| + n] == ids + more[..n];
      NothingBaked(job, ids, more[..n]);
    }
  }

  /** The ids up to one of them end with it. */
  lemma OneUpTo(job: Job, last: int, id: nat) returns (k: nat)
    requires job.Valid() && last < id && id in job.ids
    ensures k < |job.ids| && job.ids[k] == id && |UpTo(job.ids, last)| <= k && |UpTo(job.ids, id)| == k + 1
    ensures UpTo(job.ids, last) == job.ids[..|UpTo(job.ids, last)|] && UpTo(job.ids, id) == job.ids[..k + 1]
    ensures forall i :: |UpTo(job.ids, last)| <= i < |job.ids| ==> last < job.ids[i]
  {
    UpToHolds(job.ids, last);
    UpToHolds(job.ids, id);
    k :| k < |job.ids| && job.ids[k] == id;
    var m := |UpTo(job.ids, id)|;
    assert forall i :: k < i < |job.ids| ==> id < job.ids[i];
    assert k < m && job.ids[m - 1] <= id;
  }

  /** Dealing with the next id that may get a tile, past ids that get none, adds that tile or nothing. */
  lemma BakedOneMore(job: Job, last: int, id: nat)
    requires job.Valid() && last < id && id in job.ids
    requires forall u: nat :: last < u < id ==> !job.Wanted(u)
    ensures BakedTo(job, id) ==
              if job.TileFor(id).Some? then BakedTo(job, last) + [Tile(id, job.TileFor(id).value)]
                else BakedTo(job, last)
  {
    var n, m := |UpTo(job.ids, last)|, |UpTo(job.ids, id)|;
    var k := OneUpTo(job, last, id);
    hide UpTo;
    assert job.ids[..m][..k] == job.ids[..k];
    SkippedIdsAddNothing(job, n, k, last);
  }

  lemma SkippedIdsAddNothing(job: Job, n: nat, k: nat, last: int)
    requires job.Valid() && n <= k <= |job.ids|
    requires forall i :: n <= i < k ==> last < job.ids[i] && !job.Wanted(job.ids[i])
    ensures Baked(job, job.ids[..k]) == Baked(job, job.ids[..n])
  {
    var more := job.ids[n..k];
    assert job.ids[..k] == job.ids[..n] + more;
    forall u | u in more
      ensures job.TileFor(u).None?
    {
      var i :| 0 <= i < |more| && more[i] == u;
      assert !job.Wanted(job.ids[n + i]);
    }
    NothingBaked(job, job.ids[..n], more);
  }

  /** Once nothing past `last` gets a tile, everything has been written. */
  lemma BakedAll(job: Job, last: int)
    requires job.Valid() && forall u: nat :: last < u ==> !job.Wanted(u)
    ensures BakedTo(job, last) == Baked(job, job.ids)
  {
    UpToHolds(job.ids, last);
    SkippedIdsAddNothing(job, |UpTo(job.ids, last)|, |job.ids|, last);
    assert job.ids[..|job.ids|] == job.ids;
  }

  /** The entry a reader finds for an id: the last one starting at or before it, if its run reaches that far. */
  function Find(entries: seq<Entry>, id: nat): Option<Entry> {
    if entries == [] then None
    else
      var last := entries[|entries| - 1];
      if last.tileId <= id then (if id < last.End() then Some(last) else None)
      else Find(entries[..|entries| - 1], id)
  }

  lemma {:induction false} FoundIsListed(entries: seq<Entry>, id: nat)
    requires Find(entries, id).Some?
    ensures Find(entries, id).value in entries && Find(entries, id).value.tileId <= id < Find(entries, id).value.End()
  {
    var n := |entries| - 1;
    if entries[n].tileId > id {
      FoundIsListed(entries[..n], id);
    }
  }

  /** What an entry addresses is what the bake wants there. */
  ghost predicate Right(job: Job, e: Entry, bytes: Bytes, size: nat) {
    && e.Within(size) && size <= |bytes| && 0 < e.length && 0 < e.runLength
    && forall u: nat :: e.tileId <= u < e.End() ==> job.Wanted(u) && job.TileFor(u).value == e.Data(bytes)
  }

  /** Entries start at ever later ids, none after `last`. */
  ghost predicate Ordered(entries: seq<Entry>, last: int) {
    && (forall i, j :: 0 <= i < j < |entries| ==> entries[i].tileId < entries[j].tileId)
    && (forall i :: 0 <= i < |entries| ==> entries[i].tileId <= last)
  }

  ghost predicate NothingMissing(job: Job, entries: seq<Entry>, last: int) {
    forall u: nat :: u <= last && job.Wanted(u) ==> Find(entries, u).Some?
  }

  /** No two entries start at one place of the data and take different lengths of it. */
  ghost predicate OneLength(entries: seq<Entry>) {
    forall i, j :: 0 <= i < |entries| && 0 <= j < |entries| && entries[i].offset == entries[j].offset ==>
      entries[i].length == entries[j].length
  }

  ghost predicate FitsWith(entries: seq<Entry>, e: Entry) {
    forall i :: 0 <= i < |entries| && entries[i].offset == e.offset ==> entries[i].length == e.length
  }

  /** The entries, over the first `size` bytes, are right, in order, and miss nothing up to `last`. */
  ghost predicate Covers(job: Job, entries: seq<Entry>, bytes: Bytes, size: nat, last: int) {
    && size <= |bytes|
    && (forall i :: 0 <= i < |entries| ==> Right(job, entries[i], bytes, size))
    && Ordered(entries, last)
    && NothingMissing(job, entries, last)
    && OneLength(entries)
  }

  /** The entries, over all the data, are right, in order, and miss nothing at all. */
  ghost predicate CoversAll(job: Job, entries: seq<Entry>, data: Bytes) {
    && (forall i :: 0 <= i < |entries| ==> Right(job, entries[i], data, |data|))
    && (forall i, j :: 0 <= i < j < |entries| ==> entries[i].tileId < entries[j].tileId)
    && (forall u: nat :: job.Wanted(u) ==> Find(entries, u).Some?)
    && OneLength(entries)
  }

  lemma CoveredAll(job: Job, entries: seq<Entry>, data: Bytes, last: int)
    requires Covers(job, entries, data, |data|, last) && forall u: nat :: job.Wanted(u) ==> u <= last
    ensures CoversAll(job, entries, data)
  {
  }

  /** Up to `last`, looking an id up answers exactly what the bake wants there. */
  lemma CoverAnswers(job: Job, entries: seq<Entry>, bytes: Bytes, size: nat, last: int, id: nat)
    requires Covers(job, entries, bytes, size, last) && id <= last
    ensures var found := Find(entries, id);
            && (found.Some? <==> job.Wanted(id))
            && (found.Some? ==> found.value.Within(|bytes|) && found.value.Data(bytes) == job.TileFor(id).value)
  {
    if Find(entries, id).Some? {
      FoundIsListed(entries, id);
      var i :| 0 <= i < |entries| && entries[i] == Find(entries, id).value;
      assert Right(job, entries[i], bytes, size);
    }
  }

  /** Writing above what is covered leaves it covered. */
  lemma CoverKeeps(job: Job, entries: seq<Entry>, bytes: Bytes, bytes': Bytes, size: nat, size': nat, last: int)
    requires Covers(job, entries, bytes, size, last)
    requires size <= size' <= |bytes'| && bytes[..size] == bytes'[..size]
    ensures Covers(job, entries, bytes', size', last)
  {
    forall i | 0 <= i < |entries|
      ensures Right(job, entries[i], bytes', size')
    {
      assert Right(job, entries[i], bytes, size);
      DataKeeps(entries[i], bytes, bytes', size);
    }
  }

  /** Ids that get no tile are dealt with by passing them. */
  lemma CoverPasses(job: Job, entries: seq<Entry>, bytes: Bytes, size: nat, last: int, id: int)
    requires Covers(job, entries, bytes, size, last) && last <= id
    requires forall u: nat :: last < u <= id ==> !job.Wanted(u)
    ensures Covers(job, entries, bytes, size, id)
  {
    assert NothingMissing(job, entries, id);
  }

  lemma FindPastPushed(entries: seq<Entry>, e: Entry, u: nat)
    ensures Find(entries + [e], u) ==
            if u < e.tileId then Find(entries, u) else if u < e.End() then Some(e) else None
  {
    assert (entries + [e])[..|entries|] == entries;
  }

  lemma CoverPushed(job: Job, entries: seq<Entry>, bytes: Bytes, size: nat, last: int, e: Entry)
    requires Covers(job, entries, bytes, size, last) && last < e.tileId && e.runLength == 1
    requires Right(job, e, bytes, size) && FitsWith(entries, e)
    requires forall u: nat :: last < u < e.tileId ==> !job.Wanted(u)
    ensures Covers(job, entries + [e], bytes, size, e.tileId)
  {
    forall u: nat | u <= e.tileId && job.Wanted(u)
      ensures Find(entries + [e], u).Some?
    {
      FindPastPushed(entries, e, u);
    }
  }

  /** The last entry, its run longer. */
  function Longer(entries: seq<Entry>, run: nat): seq<Entry>
    requires entries != []
  {
    entries[|entries| - 1 := entries[|entries| - 1].(runLength := run)]
  }

  lemma FindInLonger(entries: seq<Entry>, run: nat, u: nat)
    requires entries != [] && entries[|entries| - 1].runLength <= run
    requires Find(entries, u).Some?
    ensures Find(Longer(entries, run), u).Some?
  {
    var n := |entries| - 1;
    assert Longer(entries, run)[..n] == entries[..n];
  }

  /** A last run that has grown, and is right as far as it has, is still covered up to where it was. */
  lemma CoverLengthened(job: Job, entries: seq<Entry>, bytes: Bytes, size: nat, last: int, run: nat)
    requires entries != [] && Covers(job, entries, bytes, size, last) && entries[|entries| - 1].runLength <= run
    requires Right(job, entries[|entries| - 1].(runLength := run), bytes, size)
    ensures Covers(job, Longer(entries, run), bytes, size, last)
  {
    forall u: nat | u <= last && job.Wanted(u)
      ensures Find(Longer(entries, run), u).Some?
    {
      FindInLonger(entries, run, u);
    }
  }

  /** The next id with a tile: nothing between `last` and it gets one. */
  ghost predicate Next(job: Job, last: int, id: nat, data: Bytes) {
    && last < id && job.Wanted(id) && job.TileFor(id).value == data && data != []
    && forall u: nat :: last < u < id ==> !job.Wanted(u)
  }

  lemma RightOneLonger(job: Job, e: Entry, bytes: Bytes, size: nat, id: nat)
    requires Right(job, e, bytes, size) && id == e.End() && job.Wanted(id) && job.TileFor(id).value == e.Data(bytes)
    ensures Right(job, e.(runLength := e.runLength + 1), bytes, size)
  {
    assert e.(runLength := e.runLength + 1).Data(bytes) == e.Data(bytes);
  }

  /** A run carried on by a tile with its bytes is right one longer. */
  lemma RunIsRight(job: Job, a: Draft, last: int, id: nat, data: Bytes)
    requires a.Sound() && Covers(job, a.entries, a.bytes, a.dataBytes, last) && Next(job, last, id, data)
    requires a.CarriesOn(id, data) && !a.Confuses(id, data)
    ensures var e := a.entries[|a.entries| - 1];
            Right(job, e.(runLength := e.runLength + 1), a.bytes, a.dataBytes)
  {
    var e := a.entries[|a.entries| - 1];
    LastOfRun(a, id, data);
    assert Right(job, e, a.bytes, a.dataBytes);
    hide Covers, Draft.Sound, Right;
    RightOneLonger(job, e, a.bytes, a.dataBytes, id);
  }

  lemma CarriedOnIs(a: Draft, id: nat, data: Bytes)
    requires a.CarriesOn(id, data)
    ensures var e := a.entries[|a.entries| - 1];
            && a.Lengthened().entries == Longer(a.entries, e.runLength + 1)
            && a.Lengthened().entries != [] && a.Lengthened().entries[|a.entries| - 1].End() == id + 1 &&
              |a.Lengthened().entries| == |a.entries|
  {
    hide Draft.Known;
  }

  lemma NextIs(job: Job, last: int, id: nat, data: Bytes)
    requires Next(job, last, id, data)
    ensures last < id && forall u: nat :: last < u < id ==> !job.Wanted(u)
  {
  }

  lemma CoverCarriedOn(job: Job, a: Draft, last: int, id: nat, data: Bytes)
    requires a.Sound() && Covers(job, a.entries, a.bytes, a.dataBytes, last) && Next(job, last, id, data)
    requires a.CarriesOn(id, data) && !a.Confuses(id, data)
    ensures Covers(job, a.Lengthened().entries, a.bytes, a.dataBytes, id)
  {
    var e := a.entries[|a.entries| - 1];
    RunIsRight(job, a, last, id, data);
    CarriedOnIs(a, id, data);
    NextIs(job, last, id, data);
    hide *;
    CoverLengthened(job, a.entries, a.bytes, a.dataBytes, last, e.runLength + 1);
    CoverReaches(job, Longer(a.entries, e.runLength + 1), a.bytes, a.dataBytes, last, id);
  }

  lemma CoverPointed(job: Job, a: Draft, last: int, id: nat, data: Bytes)
    requires a.Sound() && Covers(job, a.entries, a.bytes, a.dataBytes, last) && Next(job, last, id, data)
    requires a.Known(data) && a.Apart()
    ensures Covers(job, a.Pointed(id, a.seen.value[data], |data|).entries, a.bytes, a.dataBytes, id)
  {
    KnownIsKept(a, data);
    var lengths :| a.ApartBy(lengths);
    assert FitsWith(a.entries, Entry(id, a.seen.value[data], |data|, 1));
    hide Draft.ApartBy, Draft.Sound;
    CoverPushed(job, a.entries, a.bytes, a.dataBytes, last, Entry(id, a.seen.value[data], |data|, 1));
  }

  lemma CoverStored(job: Job, a: Draft, last: int, id: nat, data: Bytes)
    requires a.Sound() && Covers(job, a.entries, a.bytes, a.dataBytes, last) && Next(job, last, id, data)
    ensures var s := a.Stored(data); Covers(job, s.Pointed(id, a.dataBytes, |data|).entries, s.bytes, s.dataBytes, id)
  {
    StoringKeeps(a, data);
    var s := a.Stored(data);
    CoverKeeps(job, a.entries, a.bytes, s.bytes, a.dataBytes, s.dataBytes, last);
    forall i | 0 <= i < |a.entries|
      ensures a.entries[i].offset < a.dataBytes
    {
      assert Right(job, a.entries[i], a.bytes, a.dataBytes);
    }
    CoverPushed(job, a.entries, s.bytes, s.dataBytes, last, Entry(id, a.dataBytes, |data|, 1));
  }

  lemma WrittenInOneOfThreeWays(a: Draft, id: nat, data: Bytes)
    requires a.Sound()
    ensures a.dataBytes <= |a.bytes| && (a.CarriesOn(id, data) ==> a.entries != [] && a.Known(data)) &&
            (a.Known(data) ==> a.seen.Some? && data in a.seen.value)
    ensures var w := a.Written(id, data);
            if a.CarriesOn(id, data) then w.entries == a.Lengthened().entries && w.bytes == a.bytes &&
              w.dataBytes == a.dataBytes
            else if a.Known(data) then
              w.entries == a.Pointed(id, a.seen.value[data], |data|).entries && w.bytes == a.bytes &&
                w.dataBytes == a.dataBytes
            else
              var s := a.Stored(data);
              w.entries == s.Pointed(id, a.dataBytes, |data|).entries && w.bytes == s.bytes &&
                w.dataBytes == s.dataBytes
  {
  }

  /** One tile more, written onto a draft, is one id more covered. */
  lemma CoverWritten(job: Job, a: Draft, last: int, id: nat, data: Bytes)
    requires a.Sound() && a.Apart() && Covers(job, a.entries, a.bytes, a.dataBytes, last) && Next(job, last, id, data)
    ensures var w := a.Written(id, data);
            w.Sound() && w.Apart() && Covers(job, w.entries, w.bytes, w.dataBytes, id) &&
              w.Tiles() == a.Tiles() + [Tile(id, data)]
  {
    FullTilesAreNotConfused(a, id, data);
    WritingAppends(a, id, data);
    WrittenInOneOfThreeWays(a, id, data);
    hide *;
    if a.CarriesOn(id, data) {
      CoverCarriedOn(job, a, last, id, data);
    } else if a.Known(data) {
      CoverPointed(job, a, last, id, data);
    } else {
      CoverStored(job, a, last, id, data);
    }
  }

  lemma CoverReaches(job: Job, entries: seq<Entry>, bytes: Bytes, size: nat, last: int, id: nat)
    requires entries != [] && Covers(job, entries, bytes, size, last) && last < id
    requires entries[|entries| - 1].End() == id + 1
    requires forall u: nat :: last < u < id ==> !job.Wanted(u)
    ensures Covers(job, entries, bytes, size, id)
  {
    assert Find(entries, id).Some?;
    assert NothingMissing(job, entries, id);
  }
}
