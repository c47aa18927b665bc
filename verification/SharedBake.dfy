/** One shard's part of a bake, and the baking of it on its own. */
module SharedBake {
  import opened Archive
  import opened Assemble
  import opened Bake
  import opened Coverage
  import opened Overlaps
  import opened Plan
  import opened Sharded
  import opened TileIds
  import opened Writer

  /** The ids of a list that lie in a shard's run. */
  function IdsWithin(ids: seq<nat>, shard: Shard): seq<nat> {
    if ids == [] then []
    else
      var rest, id := IdsWithin(ids[..|ids| - 1], shard), ids[|ids| - 1];
      if shard.Has(id) then rest + [id] else rest
  }

  /** The job of one shard: the same sources, selection and merge, over the shard's run of ids. */
  function PartOf(job: Job, shard: Shard): Job {
    Job(IdsWithin(job.ids, shard), shard.from, Until(shard.to), (id: nat) => job.Asked(id), job.merge)
  }

  lemma {:induction false} IdsWithinHas(ids: seq<nat>, shard: Shard, id: nat)
    ensures id in IdsWithin(ids, shard) <==> id in ids && shard.Has(id)
  {
    if ids != [] {
      var n := |ids| - 1;
      IdsWithinHas(ids[..n], shard, id);
      assert ids == ids[..n] + [ids[n]];
    }
  }

  lemma {:induction false} IdsWithinClimbs(ids: seq<nat>, shard: Shard)
    requires Climbs(ids)
    ensures Climbs(IdsWithin(ids, shard))
  {
    if ids != [] {
      var n := |ids| - 1;
      IdsWithinClimbs(ids[..n], shard);
      var rest := IdsWithin(ids[..n], shard);
      forall i | 0 <= i < |rest|
        ensures rest[i] < ids[n]
      {
        IdsWithinHas(ids[..n], shard, rest[i]);
        var k :| 0 <= k < n && ids[..n][k] == rest[i];
      }
    }
  }

  lemma PartIsAShard(job: Job, shard: Shard)
    requires job.Valid()
    ensures IsShardOf(job, shard, PartOf(job, shard))
  {
    IdsWithinClimbs(job.ids, shard);
    forall id: nat
      ensures id in PartOf(job, shard).ids <==> id in job.ids && shard.Has(id)
    {
      IdsWithinHas(job.ids, shard, id);
    }
  }

  /** Each shard's job. */
  function PartsOf(job: Job, shards: seq<Shard>): (parts: seq<Job>)
    ensures |parts| == |shards| && forall i :: 0 <= i < |parts| ==> parts[i] == PartOf(job, shards[i])
  {
    seq(|shards|, i requires 0 <= i < |shards| => PartOf(job, shards[i]))
  }

  lemma PartsAreShards(job: Job, shards: seq<Shard>)
    requires job.Valid()
    ensures AreShardsOf(job, shards, PartsOf(job, shards))
    ensures job.NoEmptyTiles() ==> forall i :: 0 <= i < |shards| ==> PartsOf(job, shards)[i].NoEmptyTiles()
  {
    forall i | 0 <= i < |shards|
      ensures IsShardOf(job, shards[i], PartsOf(job, shards)[i])
    {
      PartIsAShard(job, shards[i]);
    }
  }

  /** How a finished archive's entries are laid out in directories. */
  type Layout = seq<Entry> -> seq<seq<Entry>>

  ghost predicate LaysOut(layout: Layout) {
    forall entries :: Flat(layout(entries)) == entries
  }

  /** One shard, baked on its own: a fragment, or nothing where it never ended. */
  method BakeShard(revision: nat, part: Job, shard: Shard, attempts: seq<Attempt>, kind: Kind, layout: Layout)
    returns (r: Option<Fragment>)
    requires part.Valid() && part.NoEmptyTiles() && attempts != [] && LaysOut(layout)
    ensures SomeIsCalm(attempts) || (AllGetOn(attempts) && |LeftTodo(part, -1)| < |attempts|) ==> r.Some?
    ensures r.Some? ==> r.value.archive.Some? ==> AllRuns(r.value.archive.value.directories, r.value.archive.value.data)
    ensures r.Some? ==> IsCoverOf(part, shard, kind, r.value)
    ensures r.Some? && NoneTears(attempts) ==> IsBakeOf(part, shard, kind, r.value)
  {
    var outcome, runs, began := BakeUntilDone(revision, part, true, attempts);
    if !outcome.Ended() {
      return None;
    }
    if !outcome.Finished? {
      return Some(Fragment(None, shard.from, shard.to));
    }
    var archive := outcome.archive;
    assert Flat(layout(archive.entries)) == archive.entries;
    FinishedHasRuns(part, archive);
    DirectoriesAreRuns(layout(archive.entries), archive.data);
    r := Some(Fragment(Some(Archived(kind, layout(archive.entries), archive.data)), shard.from, shard.to));
  }

  lemma FinishedHasRuns(job: Job, archive: PMTiles)
    requires Answers(job, archive)
    ensures AreRuns(archive.entries, archive.data)
  {
  }
}
