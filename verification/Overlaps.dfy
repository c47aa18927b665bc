/**
 Shards whose bakes were killed half way into a checkpoint, put together. Such a
 bake's archive may say some of its last run twice, so it does not hold exactly
 its tiles; looked up, it is right all the same, and so is what it is put into.
 */
module Overlaps {
  import opened Archive
  import opened Assemble
  import opened Bake
  import opened Coverage
  import opened Plan
  import opened Sharded
  import opened Sorting
  import opened TileIds
  import opened Union
  import opened Whole
  import opened Writer

  /** A run that addresses only what the bake wants there. */
  ghost predicate RightRun(job: Job, run: TileRun) {
    && run.data != []
    && forall u: nat :: run.tileId <= u < run.tileId + run.count ==>
         job.Wanted(u) && job.TileFor(u).value == run.data
  }

  ghost predicate RightRuns(job: Job, runs: seq<TileRun>) {
    forall i :: 0 <= i < |runs| ==> RightRun(job, runs[i])
  }

  /** Runs start at ever later ids, within bounds; one may still reach past where the next starts. */
  ghost predicate StartsClimb(runs: seq<TileRun>, from: int, to: int) {
    && (forall i, j :: 0 <= i < j < |runs| ==> runs[i].tileId < runs[j].tileId)
    && (forall i :: 0 <= i < |runs| ==> from <= runs[i].tileId < to)
  }

  /** The last run starting at or before an id reaches it. */
  predicate Reached(runs: seq<TileRun>, u: nat) {
    if runs == [] then false
    else
      var last := runs[|runs| - 1];
      if last.tileId <= u then u < last.tileId + last.count else Reached(runs[..|runs| - 1], u)
  }

  ghost predicate ReachedFrom(job: Job, runs: seq<TileRun>, from: int, to: int) {
    forall u: nat :: from <= u < to && job.Wanted(u) ==> Reached(runs, u)
  }

  /** Everything is covered up to where a run starts, and the last entry reaches its end. */
  ghost predicate CoversRun(job: Job, w: Draft, run: TileRun) {
    && w.Sound() && w.Apart() && Covers(job, w.entries, w.bytes, w.dataBytes, run.tileId)
    && w.entries != [] && w.entries[|w.entries| - 1].End() == run.tileId + run.count
  }

  /** What writing some runs leaves. */
  ghost predicate HasCovered(job: Job, w: Draft, runs: seq<TileRun>) {
    && w.Sound() && w.Apart()
    && if runs == [] then w.entries == [] && Covers(job, [], w.bytes, w.dataBytes, -1)
       else CoversRun(job, w, runs[|runs| - 1])
  }

  /** A last entry that reaches on covers what it reaches. */
  lemma CoverGoesOn(job: Job, entries: seq<Entry>, bytes: Bytes, size: nat, last: int, next: int)
    requires Covers(job, entries, bytes, size, last) && last <= next
    requires forall u: nat :: last < u <= next && job.Wanted(u) ==>
               entries != [] && u < entries[|entries| - 1].End()
    ensures Covers(job, entries, bytes, size, next)
  {
    forall u: nat | u <= next && job.Wanted(u)
      ensures Find(entries, u).Some?
    {
      if last < u {
        assert entries[|entries| - 1].tileId <= last;
      }
    }
  }

  /** So whatever lies before where the next run starts is covered. */
  lemma CoveredToNext(job: Job, w: Draft, runs: seq<TileRun>, next: int)
    requires HasCovered(job, w, runs) && -1 <= next
    requires forall i :: 0 <= i < |runs| ==> runs[i].tileId <= next
    requires ReachedFrom(job, runs, 0, next + 1)
    ensures Covers(job, w.entries, w.bytes, w.dataBytes, next)
  {
    var last := if runs == [] then -1 else runs[|runs| - 1].tileId;
    forall u: nat | last < u <= next && job.Wanted(u)
      ensures w.entries != [] && u < w.entries[|w.entries| - 1].End()
    {
      assert Reached(runs, u);
    }
    hide Draft.Sound, Draft.Apart, Covers, ReachedFrom;
    CoverGoesOn(job, w.entries, w.bytes, w.dataBytes, last, next);
  }

  /** An entry with a run's tile in it is right as far as the run goes. */
  lemma RightAsFar(job: Job, e: Entry, bytes: Bytes, size: nat, run: TileRun, longer: nat)
    requires Right(job, e, bytes, size) && RightRun(job, run) && 1 <= run.count
    requires e.End() == run.tileId + 1 && longer == e.runLength + (run.count - 1)
    ensures Right(job, e.(runLength := longer), bytes, size)
  {
    var id := run.tileId;
    assert e.tileId <= id < e.End() && id < id + run.count;
    assert job.TileFor(id).value == e.Data(bytes) && job.TileFor(id).value == run.data;
    var longest := e.(runLength := longer);
    forall u: nat | longest.tileId <= u < longest.End()
      ensures job.Wanted(u) && job.TileFor(u).value == longest.Data(bytes)
    {
      if u >= e.End() {
        assert id <= u < id + run.count;
      }
    }
  }

  /** The last entry after a tile was written ends with it. */
  lemma WrittenEndsThere(a: Draft, id: nat, data: Bytes)
    requires a.Sound()
    ensures var w := a.Written(id, data); w.entries != [] && w.entries[|w.entries| - 1].End() == id + 1
  {
  }

  lemma RunIsLonger(a: Draft, tileId: nat, count: nat, data: Bytes)
    requires a.Sound() && 1 <= count
    ensures var w, r := a.Written(tileId, data), WrittenRun(a, tileId, count, data);
            && w.entries != [] && r.bytes == w.bytes && r.dataBytes == w.dataBytes
            && var longer := w.entries[|w.entries| - 1].runLength + (count - 1);
               r.entries == Longer(w.entries, longer)
  {
    WrittenHasAnEntry(a, tileId, data);
    hide Draft.Written, Draft.Sound;
  }

  lemma LongerEnds(entries: seq<Entry>, more: nat)
    requires entries != []
    ensures var last := entries[|entries| - 1];
            var longer := Longer(entries, last.runLength + more);
            longer != [] && longer[|longer| - 1].End() == last.End() + more
  {
  }

  /** A run's first tile written, the rest of it is covered by lengthening the entry that tile is in. */
  lemma CoverLengthens(job: Job, entries: seq<Entry>, bytes: Bytes, size: nat, run: TileRun)
    requires Covers(job, entries, bytes, size, run.tileId) && RightRun(job, run) && 1 <= run.count
    requires entries != [] && entries[|entries| - 1].End() == run.tileId + 1
    ensures var longer := Longer(entries, entries[|entries| - 1].runLength + (run.count - 1));
            && Covers(job, longer, bytes, size, run.tileId)
            && longer != [] && longer[|longer| - 1].End() == run.tileId + run.count
  {
    hide *;
    var last, more := entries[|entries| - 1], run.count - 1;
    LastIsRight(job, entries, bytes, size, run.tileId);
    RightAsFar(job, last, bytes, size, run, last.runLength + more);
    CoverLengthened(job, entries, bytes, size, run.tileId, last.runLength + more);
    LongerEnds(entries, more);
  }

  lemma LengthenedCovers(job: Job, w: Draft, r: Draft, run: TileRun)
    requires Covers(job, w.entries, w.bytes, w.dataBytes, run.tileId) && RightRun(job, run) && 1 <= run.count
    requires w.entries != [] && w.entries[|w.entries| - 1].End() == run.tileId + 1
    requires r.entries == Longer(w.entries, w.entries[|w.entries| - 1].runLength + (run.count - 1))
    requires r.bytes == w.bytes && r.dataBytes == w.dataBytes && r.Sound() && r.Apart()
    ensures CoversRun(job, r, run)
  {
    CoverLengthens(job, w.entries, w.bytes, w.dataBytes, run);
    hide Covers, Draft.Sound, Draft.Apart, Longer;
  }

  /** A run's first tile, written. */
  lemma FirstCovers(job: Job, a: Draft, run: TileRun)
    requires a.Sound() && a.Apart() && RightRun(job, run) && 1 <= run.count
    requires Covers(job, a.entries, a.bytes, a.dataBytes, run.tileId - 1)
    ensures var w := a.Written(run.tileId, run.data);
            Covers(job, w.entries, w.bytes, w.dataBytes, run.tileId) && run.data != []
  {
    var before := run.tileId as int - 1;
    FirstOfRun(job, run);
    hide Draft.Sound, Draft.Apart, Draft.Written, Covers, RightRun;
    CoverWritten(job, a, before, run.tileId, run.data);
  }

  /** One run more. */
  lemma RunCovers(job: Job, a: Draft, run: TileRun)
    requires a.Sound() && a.Apart() && RightRun(job, run) && 1 <= run.count
    requires Covers(job, a.entries, a.bytes, a.dataBytes, run.tileId - 1)
    ensures CoversRun(job, WrittenRun(a, run.tileId, run.count, run.data), run)
  {
    var id, count, data := run.tileId, run.count, run.data;
    FirstCovers(job, a, run);
    WrittenEndsThere(a, id, data);
    RunIsLonger(a, id, count, data);
    RunKeepsApart(a, id, count, data);
    RunIsSound(a, id, count, data);
    hide Draft.Sound, Draft.Apart, Draft.Written, Covers, RightRun, WrittenRun, CoversRun, Longer, Draft.Confuses;
    LengthenedCovers(job, a.Written(id, data), WrittenRun(a, id, count, data), run);
  }

  lemma FirstOfRun(job: Job, run: TileRun)
    requires RightRun(job, run) && 1 <= run.count
    ensures run.data != [] && Next(job, run.tileId - 1, run.tileId, run.data)
  {
  }

  lemma RunIsSound(a: Draft, tileId: nat, count: nat, data: Bytes)
    requires a.Sound() && 1 <= count
    ensures WrittenRun(a, tileId, count, data).Sound()
  {
    RunAppends(a, tileId, count, data);
    hide Draft.Sound, WrittenRun;
  }

  lemma LastIsRight(job: Job, entries: seq<Entry>, bytes: Bytes, size: nat, last: int)
    requires Covers(job, entries, bytes, size, last) && entries != []
    ensures Right(job, entries[|entries| - 1], bytes, size)
  {
    hide Right, Ordered, NothingMissing, OneLength;
  }

  /** Written one after another, right runs that reach every wanted id cover them all. */
  lemma {:induction false} RunsCover(job: Job, deduplicate: bool, runs: seq<TileRun>, to: int)
    requires Counted(runs) && RightRuns(job, runs) && StartsClimb(runs, 0, to) && ReachedFrom(job, runs, 0, to)
    ensures Fresh(deduplicate).Sound() && HasCovered(job, WrittenRuns(Fresh(deduplicate), runs), runs)
  {
    FreshIsEmpty(deduplicate);
    if runs == [] {
      NothingCovered(job, deduplicate);
    } else {
      var n := |runs| - 1;
      var before, run := runs[..n], runs[n];
      AllButLast(job, runs, to);
      hide *;
      RunsCover(job, deduplicate, before, run.tileId);
      var w := WrittenRuns(Fresh(deduplicate), before);
      CoveredToNext(job, w, before, run.tileId - 1);
      WasSound(job, w, before);
      RunCovers(job, w, run);
      WrittenOneMore(Fresh(deduplicate), runs);
      NowCovered(job, WrittenRun(w, run.tileId, run.count, run.data), runs);
    }
  }

  lemma NothingCovered(job: Job, deduplicate: bool)
    ensures Fresh(deduplicate).Sound() && HasCovered(job, WrittenRuns(Fresh(deduplicate), []), [])
  {
    FreshIsEmpty(deduplicate);
  }

  lemma AllButLast(job: Job, runs: seq<TileRun>, to: int)
    requires runs != [] && Counted(runs) && RightRuns(job, runs) && StartsClimb(runs, 0, to) &&
             ReachedFrom(job, runs, 0, to)
    ensures var n := |runs| - 1;
            && Counted(runs[..n]) && RightRuns(job, runs[..n]) && StartsClimb(runs[..n], 0, runs[n].tileId)
            && ReachedFrom(job, runs[..n], 0, runs[n].tileId) && RightRun(job, runs[n]) && 1 <= runs[n].count
            && 0 <= runs[n].tileId && forall i :: 0 <= i < n ==> runs[..n][i].tileId <= runs[n].tileId - 1
  {
    hide RightRun;
  }

  lemma WasSound(job: Job, w: Draft, runs: seq<TileRun>)
    requires HasCovered(job, w, runs)
    ensures w.Sound() && w.Apart()
  {
    hide Covers, Draft.Sound, Draft.Apart;
  }

  lemma WrittenOneMore(a: Draft, runs: seq<TileRun>)
    requires a.Sound() && Counted(runs) && runs != []
    ensures var n := |runs| - 1;
            Counted(runs[..n]) && 1 <= runs[n].count && WrittenRuns(a, runs[..n]).Sound() &&
            WrittenRuns(a, runs) == WrittenRun(WrittenRuns(a, runs[..n]), runs[n].tileId, runs[n].count, runs[n].data)
  {
    hide Draft.Sound, WrittenRun;
  }

  lemma NowCovered(job: Job, w: Draft, runs: seq<TileRun>)
    requires runs != [] && CoversRun(job, w, runs[|runs| - 1])
    ensures HasCovered(job, w, runs)
  {
    hide Covers, Draft.Sound, Draft.Apart;
  }

  lemma {:induction false} ReachedInFirst(a: seq<TileRun>, b: seq<TileRun>, u: nat)
    requires forall i :: 0 <= i < |b| ==> u < b[i].tileId
    ensures Reached(a + b, u) == Reached(a, u)
  {
    if b == [] {
      assert a + b == a;
    } else {
      assert (a + b)[..|a + b| - 1] == a + b[..|b| - 1];
      ReachedInFirst(a, b[..|b| - 1], u);
    }
  }

  lemma {:induction false} ReachedInSecond(a: seq<TileRun>, b: seq<TileRun>, u: nat)
    requires Reached(b, u)
    ensures Reached(a + b, u)
  {
    assert (a + b)[..|a + b| - 1] == a + b[..|b| - 1];
    if b[|b| - 1].tileId > u {
      ReachedInSecond(a, b[..|b| - 1], u);
    }
  }

  /** An id is reached by the runs that an archive's entries are where a reader finds it there. */
  lemma {:induction false} ReachedIsFound(entries: seq<Entry>, data: Bytes, u: nat)
    requires AreRuns(entries, data)
    ensures Reached(PlainRuns(entries, data), u) <==> Find(entries, u).Some?
  {
    if entries != [] {
      var n := |entries| - 1;
      assert PlainRuns(entries, data)[..n] == PlainRuns(entries[..n], data);
      ReachedIsFound(entries[..n], data, u);
    }
  }

  /** Runs of part of a bake: right, in order, and missing nothing of it. */
  ghost predicate Fills(job: Job, runs: seq<TileRun>, from: int, to: int) {
    RightRuns(job, runs) && StartsClimb(runs, from, to) && ReachedFrom(job, runs, from, to)
  }

  lemma FillsJoin(job: Job, a: seq<TileRun>, b: seq<TileRun>, from: int, m: int, to: int)
    requires Fills(job, a, from, m) && Fills(job, b, m, to) && from <= m <= to
    ensures Fills(job, a + b, from, to)
  {
    forall u: nat | from <= u < to && job.Wanted(u)
      ensures Reached(a + b, u)
    {
      if u < m {
        ReachedInFirst(a, b, u);
      } else {
        ReachedInSecond(a, b, u);
      }
    }
    hide RightRun, Reached;
  }

  /**
   A fragment is what a shard's own bake may come to, however it was killed on
   the way: right about everything it addresses, and missing nothing.
   */
  ghost predicate IsCoverOf(part: Job, shard: Shard, kind: Kind, f: Fragment) {
    && f.from == shard.from && f.to == shard.to
    && match f.archive
       case None => Baked(part, part.ids) == []
       case Some(a) => a.kind == kind && CoversAll(part, Flat(a.directories), a.data)
  }

  ghost predicate AreCoversOf(parts: seq<Job>, shards: seq<Shard>, kind: Kind, fragments: seq<Fragment>) {
    && |fragments| == |parts| == |shards|
    && forall i :: 0 <= i < |shards| ==> IsCoverOf(parts[i], shards[i], kind, fragments[i])
  }

  /** What a part wants is what the whole does, of its shard. */
  lemma PartWants(job: Job, shard: Shard, part: Job, u: nat)
    requires IsShardOf(job, shard, part)
    ensures part.Wanted(u) <==> shard.Has(u) && job.Wanted(u)
    ensures part.Wanted(u) ==> part.TileFor(u) == job.TileFor(u)
  {
  }

  lemma EmptyWantsNothing(part: Job, u: nat)
    requires Baked(part, part.ids) == []
    ensures !part.Wanted(u)
  {
    if part.Wanted(u) {
      BakedHas(part, part.ids, Tile(u, part.TileFor(u).value));
    }
  }

  lemma CoverRuns(part: Job, entries: seq<Entry>, data: Bytes, from: nat, to: nat)
    requires CoversAll(part, entries, data) && forall u: nat :: part.Wanted(u) ==> from <= u < to
    ensures AreRuns(entries, data) && AllInside(entries, from, to) && OneLength(entries)
  {
    forall i | 0 <= i < |entries|
      ensures 1 <= entries[i].runLength && from <= entries[i].tileId && entries[i].End() <= to
    {
      assert Right(part, entries[i], data, |data|);
      assert part.Wanted(entries[i].tileId) && part.Wanted(entries[i].End() - 1);
    }
  }

  lemma RunsAreRight(job: Job, shard: Shard, part: Job, entries: seq<Entry>, data: Bytes)
    requires IsShardOf(job, shard, part) && CoversAll(part, entries, data) && AreRuns(entries, data)
    ensures RightRuns(job, PlainRuns(entries, data))
  {
    var runs := PlainRuns(entries, data);
    forall i | 0 <= i < |runs|
      ensures RightRun(job, runs[i])
    {
      assert Right(part, entries[i], data, |data|);
      forall u: nat | runs[i].tileId <= u < runs[i].tileId + runs[i].count
        ensures job.Wanted(u) && job.TileFor(u).value == runs[i].data
      {
        PartWants(job, shard, part, u);
      }
    }
  }

  lemma RunsFill(job: Job, shard: Shard, part: Job, entries: seq<Entry>, data: Bytes)
    requires IsShardOf(job, shard, part) && CoversAll(part, entries, data)
    requires AreRuns(entries, data) && AllInside(entries, shard.from, shard.to)
    ensures Fills(job, PlainRuns(entries, data), shard.from, shard.to)
  {
    RunsAreRight(job, shard, part, entries, data);
    var runs := PlainRuns(entries, data);
    forall u: nat | shard.Has(u) && job.Wanted(u)
      ensures Reached(runs, u)
    {
      PartWants(job, shard, part, u);
      ReachedIsFound(entries, data, u);
    }
    hide RightRuns, Reached, IsShardOf, Right, OneLength;
  }

  /** Such a fragment is accepted, and fills its shard. */
  lemma CoverIsAccepted(job: Job, shard: Shard, part: Job, kind: Kind, f: Fragment)
    requires IsShardOf(job, shard, part) && IsCoverOf(part, shard, kind, f)
    ensures f.archive.Some? ==> AllRuns(f.archive.value.directories, f.archive.value.data)
    ensures HoldsItsOwn(f) && Fills(job, RunsOf(f), shard.from, shard.to)
  {
    forall u: nat
      ensures part.Wanted(u) <==> shard.Has(u) && job.Wanted(u)
    {
      PartWants(job, shard, part, u);
    }
    match f.archive {
      case None =>
        forall u: nat
          ensures !part.Wanted(u)
        {
          EmptyWantsNothing(part, u);
        }
      case Some(a) =>
        var entries := Flat(a.directories);
        CoverRuns(part, entries, a.data, shard.from, shard.to);
        DirectoriesAreRuns(a.directories, a.data);
        DirectoriesAreInside(a.directories, shard.from, shard.to);
        DirectoriesReadRight(a.directories, a.data);
        RunsFill(job, shard, part, entries, a.data);
        hide IsShardOf, CoversAll, AreRuns, AllInside, OneLength, Flat, Fills, AllRuns, RunsOfDirectories;
    }
  }

  /** Each shard ends where the next begins. */
  ghost predicate Abut(shards: seq<Shard>, from: int) {
    && (forall i :: 0 <= i < |shards| ==> shards[i].from < shards[i].to)
    && (forall i, j :: 0 <= i && j == i + 1 < |shards| ==> shards[i].to == shards[j].from)
    && (shards != [] ==> shards[0].from == from)
  }

  function EndOf(shards: seq<Shard>, from: int): int {
    if shards == [] then from else shards[|shards| - 1].to
  }

  /** One fragment's runs after another's fill the run of ids their shards make. */
  lemma {:induction false} FragmentsFill(job: Job, shards: seq<Shard>, parts: seq<Job>, kind: Kind,
                                         fragments: seq<Fragment>, from: int)
    requires AreShardsOf(job, shards, parts) && AreCoversOf(parts, shards, kind, fragments) && Abut(shards, from)
    ensures Readable(fragments) && AllHoldTheirOwn(fragments) && from <= EndOf(shards, from)
    ensures Fills(job, RunsOfFragments(fragments), from, EndOf(shards, from))
  {
    if fragments != [] {
      var n := |fragments| - 1;
      hide *;
      LastCovers(job, shards, parts, kind, fragments, from);
      FragmentsFill(job, shards[..n], parts[..n], kind, fragments[..n], from);
      CoverIsAccepted(job, shards[n], parts[n], kind, fragments[n]);
      OneMoreFragment(fragments);
      FillsJoin(job, RunsOfFragments(fragments[..n]), RunsOf(fragments[n]), from, shards[n].from, shards[n].to);
    }
  }

  lemma LastCovers(job: Job, shards: seq<Shard>, parts: seq<Job>, kind: Kind, fragments: seq<Fragment>, from: int)
    requires AreShardsOf(job, shards, parts) && AreCoversOf(parts, shards, kind, fragments) && Abut(shards, from)
    requires fragments != []
    ensures var n := |fragments| - 1;
            && |shards| == |parts| == n + 1 && EndOf(shards, from) == shards[n].to
            && EndOf(shards[..n], from) == shards[n].from <= shards[n].to
            && IsCoverOf(parts[n], shards[n], kind, fragments[n]) && IsShardOf(job, shards[n], parts[n])
            && AreShardsOf(job, shards[..n], parts[..n]) && AreCoversOf(parts[..n], shards[..n], kind, fragments[..n])
            && Abut(shards[..n], from)
  {
    hide IsCoverOf, IsShardOf;
  }

  lemma OneMoreFragment(fragments: seq<Fragment>)
    requires fragments != []
    requires var f := fragments[|fragments| - 1];
             HoldsItsOwn(f) && (f.archive.Some? ==> AllRuns(f.archive.value.directories, f.archive.value.data))
    requires Readable(fragments[..|fragments| - 1]) && AllHoldTheirOwn(fragments[..|fragments| - 1])
    ensures Readable(fragments) && AllHoldTheirOwn(fragments)
    ensures RunsOfFragments(fragments) ==
            RunsOfFragments(fragments[..|fragments| - 1]) + RunsOf(fragments[|fragments| - 1])
  {
    hide HoldsItsOwn, AllRuns, RunsOf;
    assert forall i :: 0 <= i < |fragments| - 1 ==> fragments[..|fragments| - 1][i] == fragments[i];
  }

  /** Only ids in some shard are wanted at all. */
  lemma WantedIsInTheShards(job: Job, stream: seq<Held>, shards: seq<Shard>, pieces: seq<seq<Held>>, u: nat)
    requires job.ids == IdsIn(stream) && IsPlan(shards, pieces, Picked(job, stream)) && job.Wanted(u)
    ensures shards != [] && shards[0].from <= u < shards[|shards| - 1].to
  {
    var picked := Picked(job, stream);
    PickedIds(job, stream);
    AskedOfHas(job, job.ids, u);
    hide Picked, IsPlan, AskedOf;
    PlanHasPieces(shards, pieces, picked);
    IdsAreHeld(picked, u);
    var k :| 0 <= k < |picked| && picked[k].id == u;
    ShardsSpan(shards, pieces, picked, k);
  }

  lemma ShardsSpan(shards: seq<Shard>, pieces: seq<seq<Held>>, picked: seq<Held>, k: nat)
    requires IsPlan(shards, pieces, picked) && k < |picked|
    ensures shards != [] && shards[0].from <= picked[k].id < shards[|shards| - 1].to
  {
    var ids, n := IdsIn(picked), |picked| - 1;
    assert ids[0] == picked[0].id && ids[k] == picked[k].id && ids[n] == picked[n].id;
    assert ids[0] <= ids[k] <= ids[n];
    var i := EachTileInOneShard(shards, pieces, picked, 0);
    ShardEnds(shards, pieces, picked, 0);
    hide Start, Flat;
    PieceAt(pieces, 0, Start(pieces, 0));
  }

  lemma PlanAbuts(shards: seq<Shard>, pieces: seq<seq<Held>>, picked: seq<Held>, from: int)
    requires IsPlan(shards, pieces, picked) && (shards != [] ==> shards[0].from == from)
    ensures Abut(shards, from)
  {
    ShardsFollow(shards, pieces, picked);
    hide IsPlan;
  }

  /** Everything wanted is reached. */
  lemma AllReached(job: Job, stream: seq<Held>, shards: seq<Shard>, pieces: seq<seq<Held>>, runs: seq<TileRun>,
                   from: nat)
    requires job.ids == IdsIn(stream) && IsPlan(shards, pieces, Picked(job, stream))
    requires (shards != [] ==> shards[0].from == from) && Fills(job, runs, from, EndOf(shards, from))
    ensures Fills(job, runs, 0, EndOf(shards, from)) && forall u: nat :: job.Wanted(u) ==> Reached(runs, u)
    ensures forall u: nat :: job.Wanted(u) ==> u < EndOf(shards, from)
  {
    forall u: nat | job.Wanted(u)
      ensures Reached(runs, u) && u < EndOf(shards, from)
    {
      WantedIsInTheShards(job, stream, shards, pieces, u);
    }
    hide IsPlan, RightRuns, Reached;
  }

  /** Something is written exactly where something is wanted. */
  lemma SomeIsWanted(job: Job, runs: seq<TileRun>, to: int)
    requires Counted(runs) && Fills(job, runs, 0, to) && forall u: nat :: job.Wanted(u) ==> Reached(runs, u)
    ensures runs != [] <==> Baked(job, job.ids) != []
  {
    if runs != [] {
      assert RightRun(job, runs[0]) && job.Wanted(runs[0].tileId);
      EmptyWantsNothingIs(job, runs[0].tileId);
    } else if Baked(job, job.ids) != [] {
      SomethingIsWanted(job, job.ids);
      var u :| u in job.ids && job.TileFor(u).Some?;
      assert job.Wanted(u);
      assert false;
    }
  }

  lemma EmptyWantsNothingIs(job: Job, u: nat)
    requires job.Wanted(u)
    ensures Baked(job, job.ids) != []
  {
    BakedHas(job, job.ids, Tile(u, job.TileFor(u).value));
  }

  lemma CoveredStarts(job: Job, w: Draft, to: int)
    requires Covers(job, w.entries, w.bytes, w.dataBytes, to)
    ensures Ascends(w.entries, EarlierEntry)
  {
    CoverAscends(job, w.entries, w.bytes, w.dataBytes, to);
  }

  /** Right runs that reach everything wanted, written, cover it all. */
  lemma WrittenAnswers(job: Job, fragments: seq<Fragment>, deduplicate: bool, archive: PMTiles, to: int)
    requires Readable(fragments) && IsMadeOf(archive, fragments, deduplicate)
    requires Fills(job, RunsOfFragments(fragments), 0, to)
    requires (forall u: nat :: job.Wanted(u) ==> u < to) && 0 <= to
    ensures Answers(job, archive) && CoversAll(job, archive.entries, archive.data)
  {
    var runs := RunsOfFragments(fragments);
    FreshIsEmpty(deduplicate);
    RunsCover(job, deduplicate, runs, to);
    var w := WrittenRuns(Fresh(deduplicate), runs);
    MadeOfIs(archive, fragments, deduplicate);
    FillsIs(job, runs, to);
    WasSound(job, w, runs);
    hide *;
    CoveredToNext(job, w, runs, to - 1);
    CoveredStarts(job, w, to - 1);
    CoveredArchiveAnswers(job, w, to - 1, archive);
  }

  lemma MadeOfIs(archive: PMTiles, fragments: seq<Fragment>, deduplicate: bool)
    requires Readable(fragments) && IsMadeOf(archive, fragments, deduplicate)
    ensures Fresh(deduplicate).Sound()
    ensures var w := WrittenRuns(Fresh(deduplicate), RunsOfFragments(fragments));
            Ascends(w.entries, EarlierEntry) ==> archive.entries == w.entries && archive.data == w.bytes[..w.dataBytes]
  {
    FreshIsEmpty(deduplicate);
  }

  lemma FillsIs(job: Job, runs: seq<TileRun>, to: int)
    requires Fills(job, runs, 0, to)
    ensures ReachedFrom(job, runs, 0, to) && forall i :: 0 <= i < |runs| ==> runs[i].tileId <= to - 1
  {
    hide RightRuns, ReachedFrom;
  }

  /**
   The refinement, for shards that were killed at any point whatever: putting
   their fragments together is never refused unless the bake comes to nothing,
   and what comes of it, looked up, answers every id as the bake done in one does.
   */
  lemma ShardedAnswers(job: Job, stream: seq<Held>, shards: seq<Shard>, pieces: seq<seq<Held>>, parts: seq<Job>,
                       kind: Kind, fragments: seq<Fragment>)
    requires job.ids == IdsIn(stream) && job.Valid() && IsPlan(shards, pieces, Picked(job, stream))
    requires AreShardsOf(job, shards, parts) && AreCoversOf(parts, shards, kind, fragments)
    ensures Readable(fragments) && InOrder(fragments) && Agree(fragments) && AllHoldTheirOwn(fragments)
    ensures SomeTile(fragments) <==> Baked(job, job.ids) != []
    ensures forall archive, deduplicate :: IsMadeOf(archive, fragments, deduplicate) ==>
              Answers(job, archive) && CoversAll(job, archive.entries, archive.data)
  {
    var from := if shards == [] then 0 else shards[0].from;
    PlanAbuts(shards, pieces, Picked(job, stream), from);
    FragmentsFill(job, shards, parts, kind, fragments, from);
    var runs := RunsOfFragments(fragments);
    AllReached(job, stream, shards, pieces, runs, from);
    CoversInOrder(shards, parts, kind, fragments, from);
    SomeIsWanted(job, runs, EndOf(shards, from));
    assert SomeTile(fragments) <==> runs != [];
    hide *;
    forall archive, deduplicate | IsMadeOf(archive, fragments, deduplicate)
      ensures Answers(job, archive) && CoversAll(job, archive.entries, archive.data)
    {
      WrittenAnswers(job, fragments, deduplicate, archive, EndOf(shards, from));
    }
  }

  lemma CoversInOrder(shards: seq<Shard>, parts: seq<Job>, kind: Kind, fragments: seq<Fragment>, from: nat)
    requires AreCoversOf(parts, shards, kind, fragments) && Abut(shards, from)
    ensures InOrder(fragments) && Agree(fragments) && 0 <= EndOf(shards, from)
  {
    assert forall i :: 0 <= i < |shards| ==> IsCoverOf(parts[i], shards[i], kind, fragments[i]);
  }

  lemma WholeIsRight(job: Job, archive: PMTiles, i: nat)
    requires IsWhole(job, archive) && Wholesome(archive.entries) && i < |archive.entries|
    ensures Right(job, archive.entries[i], archive.data, |archive.data|)
  {
    var entries, data := archive.entries, archive.data;
    var e := entries[i];
    assert AllWithin(entries, |data|) && TilesOf(entries, data) == Baked(job, job.ids) && NoEmptyRuns(entries);
    assert e.Within(|data|) && 0 < e.length && 0 < e.runLength;
    hide IsWhole, Wholesome, TilesOf, Baked;
    forall u: nat | e.tileId <= u < e.End()
      ensures job.Wanted(u) && job.TileFor(u).value == e.Data(data)
    {
      TileIsListed(entries, data, i, u);
      BakedHas(job, job.ids, Tile(u, e.Data(data)));
    }
  }

  /** A whole archive covers its bake. */
  lemma WholeCovers(job: Job, archive: PMTiles)
    requires job.Valid() && job.NoEmptyTiles() && IsWhole(job, archive)
    ensures CoversAll(job, archive.entries, archive.data)
  {
    WholeIsWholesome(job, archive);
    WholeAnswers(job, archive);
    forall i | 0 <= i < |archive.entries|
      ensures Right(job, archive.entries[i], archive.data, |archive.data|)
    {
      WholeIsRight(job, archive, i);
    }
    assert forall i :: 0 <= i < |archive.entries| ==> 0 < archive.entries[i].runLength;
    hide IsWhole, Right;
  }

  lemma BakeIsCover(part: Job, shard: Shard, kind: Kind, f: Fragment)
    requires part.Valid() && part.NoEmptyTiles() && IsBakeOf(part, shard, kind, f)
    ensures IsCoverOf(part, shard, kind, f)
  {
    if f.archive.Some? {
      var a := f.archive.value;
      WholeCovers(part, PMTiles(Flat(a.directories), a.data, |Baked(part, part.ids)|, true));
    }
  }
}
