/**
 A worker's side of a shared-out bake: it knows the sources, the selection and
 its shard's two ends, scans and bakes that, and what it uploads is honest.
 */
module Workers {
  import opened Archive
  import opened Assemble
  import opened Bake
  import opened Books
  import opened Coverage
  import opened Leasing
  import opened Overlaps
  import opened Plan
  import opened Selection
  import opened Service
  import opened Sharded
  import opened SharedBake
  import opened Streams
  import opened TileIds
  import opened Union
  import opened Whole

  /** The commission is to bake what is selected of some sources. */
  ghost predicate IsOver(c: Commission, sources: seq<Source>, selection: Selection, worldY: real -> real,
                         merge: nat -> Option<Bytes>)
    requires AllValid(sources)
  {
    && c.job == JobOver(IdsIn(c.stream), selection, worldY, merge)
    && IsStream(IdsIn(c.stream), sources, IdSpanOf(selection))
  }

  ghost predicate NoneEmpty(merge: nat -> Option<Bytes>) {
    forall id: nat :: merge(id).Some? ==> merge(id).value != []
  }

  /** What a coordinator commissions: the sources, scanned. */
  method Commissioned(stack: string, createdAt: int, remote: bool, sources: seq<Source>, selection: Selection,
                      worldY: real -> real, merge: nat -> Option<Bytes>, tilesPerShard: real, kind: Kind,
                      untorn: bool)
    returns (c: Option<Commission>)
    requires AllValid(sources) && NoneEmpty(merge)
    ensures c.None? <==> exists j :: 0 <= j < |sources| && sources[j].Refused(IdSpanOf(selection))
    ensures c.Some? ==> c.value.Valid() && IsOver(c.value, sources, selection, worldY, merge)
    ensures c.Some? ==> c.value.stack == stack && c.value.kind == kind && c.value.untorn == untorn
    ensures c.Some? ==> c.value.createdAt == createdAt && c.value.remote == remote
    ensures c.Some? ==> c.value.tilesPerShard == tilesPerShard
  {
    hide SomeHas, Selects, IdSpanOf, Source.Refused;
    var stream := ScanSources(sources, IdSpanOf(selection));
    if stream.None? {
      return None;
    }
    var job := JobOver(IdsIn(stream.value), selection, worldY, merge);
    c := Some(Commission(stack, createdAt, remote, job, stream.value, tilesPerShard, kind, untorn));
  }

  /** There is one way for a job to be a shard of another. */
  lemma OneShardOf(job: Job, shard: Shard, a: Job, b: Job)
    requires IsShardOf(job, shard, a) && IsShardOf(job, shard, b)
    ensures a.ids == b.ids && Baked(a, a.ids) == Baked(b, b.ids)
    ensures forall u: nat :: (a.Wanted(u) <==> b.Wanted(u)) && (a.Wanted(u) ==> a.TileFor(u) == b.TileFor(u))
  {
    ClimbsIsUnique(a.ids, b.ids);
    SameBaked(a, b, a.ids);
    forall u: nat
      ensures (a.Wanted(u) <==> b.Wanted(u)) && (a.Wanted(u) ==> a.TileFor(u) == b.TileFor(u))
    {
      PartWants(job, shard, a, u);
      PartWants(job, shard, b, u);
    }
  }

  /** So whichever of them is baked, what comes of it is the same. */
  lemma SameBakes(job: Job, shard: Shard, a: Job, b: Job, kind: Kind, f: Fragment)
    requires IsShardOf(job, shard, a) && IsShardOf(job, shard, b)
    ensures IsBakeOf(a, shard, kind, f) ==> IsBakeOf(b, shard, kind, f)
    ensures IsCoverOf(a, shard, kind, f) ==> IsCoverOf(b, shard, kind, f)
  {
    OneShardOf(job, shard, a, b);
    hide IsShardOf, Baked, Flat;
    if IsCoverOf(a, shard, kind, f) && f.archive.Some? {
      SameCovers(a, b, Flat(f.archive.value.directories), f.archive.value.data);
    }
  }

  lemma SameCovers(a: Job, b: Job, entries: seq<Entry>, data: Bytes)
    requires CoversAll(a, entries, data)
    requires forall u: nat :: (a.Wanted(u) <==> b.Wanted(u)) && (a.Wanted(u) ==> a.TileFor(u) == b.TileFor(u))
    ensures CoversAll(b, entries, data)
  {
    forall i | 0 <= i < |entries|
      ensures Right(b, entries[i], data, |data|)
    {
      assert Right(a, entries[i], data, |data|);
    }
  }

  lemma PlannedIsWithin(c: Commission, sources: seq<Source>, selection: Selection, worldY: real -> real,
                        merge: nat -> Option<Bytes>, shards: seq<Shard>, i: nat)
    requires AllValid(sources) && IsOver(c, sources, selection, worldY, merge)
    requires IsPlanOf(c, shards) && i < |shards|
    ensures LiesWithin(selection, shards[i])
  {
    hide LiesWithin, IsStream, Picked, IsPlan, Fair, Selects, IdSpanOf;
    var pieces :| IsPlan(shards, pieces, c.PickedTiles()) && Fair(pieces, Plan.ShareOf(c.tilesPerShard));
    PlannedLiesWithin(c.stream, selection, worldY, merge, shards, pieces, i);
  }

  /**
   A worker bakes the shard it was lent, from the sources themselves: what it
   comes to, however often it was killed on the way, is honest.
   */
  method BakeLent(ghost c: Commission, sources: seq<Source>, selection: Selection, worldY: real -> real,
                  merge: nat -> Option<Bytes>, ghost shards: seq<Shard>, ghost i: nat, shard: Shard,
                  revision: nat, attempts: seq<Attempt>, kind: Kind, layout: Layout)
    returns (r: Option<Option<Upload>>)
    requires AllValid(sources) && NoneEmpty(merge) && c.Valid() && IsOver(c, sources, selection, worldY, merge)
    requires IsPlanOf(c, shards) && i < |shards| && shard == shards[i] && kind == c.kind
    requires attempts != [] && LaysOut(layout) && (c.untorn ==> NoneTears(attempts))
    ensures r.Some? ==> IsHonest(c, shard, r.value)
  {
    hide *;
    PlannedIsWithin(c, sources, selection, worldY, merge, shards, i);
    var own := ShardOf(selection, shard.from, shard.to);
    var stream := ScanSources(sources, IdSpanOf(own));
    if stream.None? {
      return None;
    }
    var ids := IdsIn(stream.value);
    var part := JobOver(ids, own, worldY, merge);
    PartIsFit(c, sources, selection, worldY, merge, shard, ids);
    var fragment := BakeShard(revision, part, shard, attempts, kind, layout);
    if fragment.None? {
      return None;
    }
    WorkIsHonest(c, sources, selection, worldY, merge, shard, ids, fragment.value, attempts);
    r := Some(fragment.value.archive);
  }

  /** Scanned on its own, it is the shard it was lent. */
  lemma PartIsFit(c: Commission, sources: seq<Source>, selection: Selection, worldY: real -> real,
                  merge: nat -> Option<Bytes>, shard: Shard, ids: seq<nat>)
    requires AllValid(sources) && NoneEmpty(merge) && IsOver(c, sources, selection, worldY, merge)
    requires LiesWithin(selection, shard)
    requires IsStream(ids, sources, IdSpanOf(ShardOf(selection, shard.from, shard.to)))
    ensures var part := JobOver(ids, ShardOf(selection, shard.from, shard.to), worldY, merge);
            part.Valid() && part.NoEmptyTiles() && IsShardOf(c.job, shard, part)
  {
    JobsHaveNoEmptyTiles(merge, selection, worldY);
    SelectedShardIsAShard(IdsIn(c.stream), ids, sources, selection, worldY, merge, shard);
    hide LiesWithin, IsStream, Selects, IdSpanOf, ShardOf, Job.NoEmptyTiles;
  }

  lemma WorkIsHonest(c: Commission, sources: seq<Source>, selection: Selection, worldY: real -> real,
                     merge: nat -> Option<Bytes>, shard: Shard, ids: seq<nat>, f: Fragment, attempts: seq<Attempt>)
    requires AllValid(sources) && NoneEmpty(merge) && c.Valid() && IsOver(c, sources, selection, worldY, merge)
    requires LiesWithin(selection, shard)
    requires IsStream(ids, sources, IdSpanOf(ShardOf(selection, shard.from, shard.to)))
    requires var part := JobOver(ids, ShardOf(selection, shard.from, shard.to), worldY, merge);
             IsCoverOf(part, shard, c.kind, f) && (NoneTears(attempts) ==> IsBakeOf(part, shard, c.kind, f))
    requires f.archive.Some? ==> AllRuns(f.archive.value.directories, f.archive.value.data)
    requires c.untorn ==> NoneTears(attempts)
    ensures IsHonest(c, shard, f.archive)
  {
    assert c.job.Valid();
    hide *;
    var part := JobOver(ids, ShardOf(selection, shard.from, shard.to), worldY, merge);
    PartIsFit(c, sources, selection, worldY, merge, shard, ids);
    PartIsAShard(c.job, shard);
    SameBakes(c.job, shard, part, PartOf(c.job, shard), c.kind, f);
    ItIsHonest(c, shard, f, attempts);
  }

  lemma JobsHaveNoEmptyTiles(merge: nat -> Option<Bytes>, selection: Selection, worldY: real -> real)
    requires NoneEmpty(merge)
    ensures forall ids, own :: JobOver(ids, own, worldY, merge).NoEmptyTiles()
  {
  }

  lemma ItIsHonest(c: Commission, shard: Shard, f: Fragment, attempts: seq<Attempt>)
    requires IsCoverOf(PartOf(c.job, shard), shard, c.kind, f)
    requires NoneTears(attempts) ==> IsBakeOf(PartOf(c.job, shard), shard, c.kind, f)
    requires c.untorn ==> NoneTears(attempts)
    requires f.archive.Some? ==> AllRuns(f.archive.value.directories, f.archive.value.data)
    ensures IsHonest(c, shard, f.archive)
  {
    assert f == Fragment(f.archive, shard.from, shard.to);
    hide PartOf, IsBakeOf, NoneTears;
  }

  /** Delivered on a lease of that shard, it is an honest delivery. */
  lemma HonestToItsLease(c: Commission, shards: seq<Shard>, lease: LeaseId, file: Option<Upload>,
                         granted: map<LeaseId, Ref>, commissions: map<JobId, Commission>)
    requires lease in granted && granted[lease].job in commissions && commissions[granted[lease].job] == c
    requires IsPlanOf(c, shards) && granted[lease].index < |shards|
    requires IsHonest(c, shards[granted[lease].index], file)
    ensures HonestFor(lease, file, granted, commissions)
  {
    hide IsHonest;
    forall others | IsPlanOf(c, others) && granted[lease].index < |others|
      ensures IsHonest(c, others[granted[lease].index], file)
    {
      OnePlan(c, shards, others);
    }
  }
}
