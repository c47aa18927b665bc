/** What it takes for an archive to hold exactly a bake's tiles, and what follows from it. */
module Whole {
  import opened Archive
  import opened Assemble
  import opened Bake
  import opened Coverage
  import opened TileIds
  import opened Writer

  ghost predicate TilesClimb(tiles: seq<Tile>) {
    forall i, j :: 0 <= i < j < |tiles| ==> tiles[i].id < tiles[j].id
  }

  lemma {:induction false} BakedHas(job: Job, ids: seq<nat>, t: Tile)
    ensures t in Baked(job, ids) <==> t.id in ids && job.TileFor(t.id) == Some(t.data)
  {
    if ids != [] {
      var n := |ids| - 1;
      BakedHas(job, ids[..n], t);
      assert ids == ids[..n] + [ids[n]];
    }
  }

  lemma {:induction false} BakedClimbs(job: Job, ids: seq<nat>)
    requires Climbs(ids)
    ensures TilesClimb(Baked(job, ids))
  {
    if ids != [] {
      var n := |ids| - 1;
      BakedClimbs(job, ids[..n]);
      var rest := Baked(job, ids[..n]);
      forall i | 0 <= i < |rest|
        ensures rest[i].id < ids[n]
      {
        BakedHas(job, ids[..n], rest[i]);
        assert rest[i] in rest;
        var k :| 0 <= k < n && ids[..n][k] == rest[i].id;
      }
    }
  }

  lemma {:induction false} RunHas(first: nat, count: nat, data: Bytes, k: nat)
    requires k < count
    ensures |Run(first, count, data)| == count && Run(first, count, data)[k] == Tile(first + k, data)
  {
    RunIsAsLong(first, count, data);
    if k < count - 1 {
      RunHas(first, count - 1, data, k);
    } else {
      RunIsAsLong(first, count - 1, data);
    }
  }

  /** Where an entry's tiles begin among all the tiles. */
  ghost function Position(entries: seq<Entry>, data: Bytes, i: nat): nat
    requires i <= |entries| && AllWithin(entries, |data|)
  {
    |TilesOf(entries[..i], data)|
  }

  /** An entry's tiles are where its position says. */
  lemma {:induction false} EntryIsThere(entries: seq<Entry>, data: Bytes, i: nat, k: nat)
    requires AllWithin(entries, |data|) && i < |entries| && k < entries[i].runLength
    ensures Position(entries, data, i) + k < Position(entries, data, i + 1) <= |TilesOf(entries, data)|
    ensures TilesOf(entries, data)[Position(entries, data, i) + k] == Tile(entries[i].tileId + k, entries[i].Data(data))
    decreases |entries|
  {
    var n := |entries| - 1;
    var last := entries[n];
    assert entries[..i + 1][..i] == entries[..i];
    RunHas(entries[i].tileId, entries[i].runLength, entries[i].Data(data), k);
    if i < n {
      EntryIsThere(entries[..n], data, i, k);
      assert entries[..n][..i] == entries[..i] && entries[..n][..i + 1] == entries[..i + 1];
    } else {
      assert entries[..n + 1] == entries;
    }
  }

  lemma {:induction false} PositionsAscend(entries: seq<Entry>, data: Bytes, i: nat, j: nat)
    requires AllWithin(entries, |data|) && i <= j <= |entries|
    ensures Position(entries, data, i) <= Position(entries, data, j)
  {
    if i < j {
      PositionsAscend(entries, data, i, j - 1);
      assert entries[..j][..j - 1] == entries[..j - 1];
    }
  }

  /** Where the tiles' ids climb, so do the runs: each ends before the next begins. */
  lemma RunsFollow(entries: seq<Entry>, data: Bytes, i: nat, j: nat)
    requires AllWithin(entries, |data|) && NoEmptyRuns(entries) && TilesClimb(TilesOf(entries, data)) &&
             i < j < |entries|
    ensures entries[i].End() <= entries[j].tileId
  {
    EntryIsThere(entries, data, i, entries[i].runLength - 1);
    EntryIsThere(entries, data, j, 0);
    PositionsAscend(entries, data, i + 1, j);
  }

  lemma TileIsListed(entries: seq<Entry>, data: Bytes, i: nat, u: nat)
    requires AllWithin(entries, |data|) && i < |entries| && entries[i].tileId <= u < entries[i].End()
    ensures Tile(u, entries[i].Data(data)) in TilesOf(entries, data)
  {
    EntryIsThere(entries, data, i, u - entries[i].tileId);
  }

  /** A whole archive of a bake without empty tiles is wholesome. */
  lemma WholeIsWholesome(job: Job, archive: PMTiles)
    requires job.Valid() && job.NoEmptyTiles() && IsWhole(job, archive)
    ensures Wholesome(archive.entries) && NoEmptyRuns(archive.entries)
  {
    var entries, data := archive.entries, archive.data;
    BakedClimbs(job, job.ids);
    assert NoEmptyRuns(entries) && AllWithin(entries, |data|);
    forall i | 0 <= i < |entries|
      ensures 0 < entries[i].length
    {
      TileIsListed(entries, data, i, entries[i].tileId);
      BakedHas(job, job.ids, Tile(entries[i].tileId, entries[i].Data(data)));
      hide Job.Valid, IsWhole;
    }
    forall i, j | 0 <= i < j < |entries|
      ensures entries[i].End() <= entries[j].tileId
    {
      RunsFollow(entries, data, i, j);
    }
  }

  /** And it holds nothing outside the ids the bake reads. */
  lemma WholeIsInside(job: Job, archive: PMTiles, from: nat, to: nat)
    requires job.Valid() && IsWhole(job, archive)
    requires forall id :: id in job.ids ==> from <= id < to
    ensures AllInside(archive.entries, from, to)
  {
    var entries, data := archive.entries, archive.data;
    forall i | 0 <= i < |entries|
      ensures from <= entries[i].tileId && entries[i].End() <= to
    {
      TileIsListed(entries, data, i, entries[i].tileId);
      TileIsListed(entries, data, i, entries[i].End() - 1);
      BakedHas(job, job.ids, Tile(entries[i].tileId, entries[i].Data(data)));
      BakedHas(job, job.ids, Tile(entries[i].End() - 1, entries[i].Data(data)));
    }
  }

  /** Among runs that follow one another, an id is found in the run that holds it. */
  lemma {:induction false} FindsItsRun(entries: seq<Entry>, i: nat, id: nat)
    requires forall i, j :: 0 <= i < j < |entries| ==> entries[i].End() <= entries[j].tileId
    requires i < |entries| && entries[i].tileId <= id < entries[i].End()
    ensures Find(entries, id) == Some(entries[i])
    decreases |entries|
  {
    var n := |entries| - 1;
    if i < n {
      FindsItsRun(entries[..n], i, id);
    }
  }

  lemma {:induction false} ListedIsInARun(entries: seq<Entry>, data: Bytes, t: Tile) returns (i: nat)
    requires AllWithin(entries, |data|) && t in TilesOf(entries, data)
    ensures i < |entries| && entries[i].tileId <= t.id < entries[i].End() && t.data == entries[i].Data(data)
  {
    var n := |entries| - 1;
    var last := entries[n];
    if t in TilesOf(entries[..n], data) {
      i := ListedIsInARun(entries[..n], data, t);
    } else {
      i := n;
      InRun(last.tileId, last.runLength, last.Data(data), t);
    }
  }

  lemma {:induction false} InRun(first: nat, count: nat, data: Bytes, t: Tile)
    requires t in Run(first, count, data)
    ensures first <= t.id < first + count && t.data == data
  {
    if t in Run(first, count - 1, data) {
      InRun(first, count - 1, data, t);
    }
  }

  /** Looked up, a whole archive answers exactly what the bake wants, at every id. */
  lemma WholeAnswers(job: Job, archive: PMTiles)
    requires job.Valid() && job.NoEmptyTiles() && IsWhole(job, archive)
    ensures Answers(job, archive)
  {
    WholeIsWholesome(job, archive);
    forall id: nat
      ensures var found := Find(archive.entries, id);
              && (found.Some? <==> job.Wanted(id))
              && (found.Some? ==>
                  found.value.Within(|archive.data|) &&
                  found.value.Data(archive.data) == job.TileFor(id).value)
    {
      WholeAnswersAt(job, archive, id);
    }
  }

  lemma WholeAnswersAt(job: Job, archive: PMTiles, id: nat)
    requires IsWhole(job, archive) && Wholesome(archive.entries)
    ensures var found := Find(archive.entries, id);
            && (found.Some? <==> job.Wanted(id))
            && (found.Some? ==>
                found.value.Within(|archive.data|) &&
                found.value.Data(archive.data) == job.TileFor(id).value)
  {
    var entries, data := archive.entries, archive.data;
    assert AllWithin(entries, |data|) && TilesOf(entries, data) == Baked(job, job.ids);
    assert forall i, j :: 0 <= i < j < |entries| ==> entries[i].End() <= entries[j].tileId;
    hide Wholesome, IsWhole, TilesOf, Baked;
    if job.Wanted(id) {
      BakedHas(job, job.ids, Tile(id, job.TileFor(id).value));
      var i := ListedIsInARun(entries, data, Tile(id, job.TileFor(id).value));
      FindsItsRun(entries, i, id);
    }
    if Find(entries, id).Some? {
      FoundIsListed(entries, id);
      var i :| 0 <= i < |entries| && entries[i] == Find(entries, id).value;
      TileIsListed(entries, data, i, id);
      BakedHas(job, job.ids, Tile(id, entries[i].Data(data)));
    }
  }
}
