/** A bake cut into shards, baked shard by shard and put together again is the bake done in one. */
module Sharded {
  import opened Archive
  import opened Assemble
  import opened Bake
  import opened Coverage
  import opened Plan
  import opened TileIds
  import opened Union
  import opened Whole
  import opened Writer

  /** A job is one shard of another: the ids the sources hold in the shard's run, asked for and merged alike. */
  ghost predicate IsShardOf(job: Job, shard: Shard, part: Job) {
    && part.Valid()
    && (forall id: nat :: id in part.ids <==> id in job.ids && shard.Has(id))
    && (forall id: nat :: shard.Has(id) ==> part.TileFor(id) == job.TileFor(id) && part.Asked(id) == job.Asked(id))
  }

  /** The ids of a list that are asked for. */
  function AskedOf(job: Job, ids: seq<nat>): seq<nat> {
    if ids == [] then []
    else
      var rest, id := AskedOf(job, ids[..|ids| - 1]), ids[|ids| - 1];
      if job.Asked(id) then rest + [id] else rest
  }

  lemma {:induction false} AskedOfHas(job: Job, ids: seq<nat>, id: nat)
    ensures id in AskedOf(job, ids) <==> id in ids && job.Asked(id)
  {
    if ids != [] {
      var n := |ids| - 1;
      AskedOfHas(job, ids[..n], id);
      assert ids == ids[..n] + [ids[n]];
    }
  }

  lemma {:induction false} AskedOfClimbs(job: Job, ids: seq<nat>)
    requires Climbs(ids)
    ensures Climbs(AskedOf(job, ids))
  {
    if ids != [] {
      var n := |ids| - 1;
      AskedOfClimbs(job, ids[..n]);
      var rest := AskedOf(job, ids[..n]);
      forall i | 0 <= i < |rest|
        ensures rest[i] < ids[n]
      {
        AskedOfHas(job, ids[..n], rest[i]);
        var k :| 0 <= k < n && ids[..n][k] == rest[i];
      }
    }
  }

  /** Only what is asked for gets a tile. */
  lemma {:induction false} OnlyAskedIsBaked(job: Job, ids: seq<nat>)
    ensures Baked(job, AskedOf(job, ids)) == Baked(job, ids)
  {
    if ids != [] {
      var n := |ids| - 1;
      OnlyAskedIsBaked(job, ids[..n]);
      assert (AskedOf(job, ids[..n]) + [ids[n]])[..|AskedOf(job, ids[..n])|] == AskedOf(job, ids[..n]);
    }
  }

  /** An ascending list is known by what it holds. */
  lemma {:induction false} ClimbsIsUnique(a: seq<nat>, b: seq<nat>)
    requires Climbs(a) && Climbs(b) && forall x: nat :: x in a <==> x in b
    ensures a == b
  {
    assert b == [] || b[|b| - 1] in b;
    if a != [] {
      assert a[|a| - 1] in b;
      var m, n := |a| - 1, |b| - 1;
      assert a[m] == b[n];
      forall x: nat
        ensures x in a[..m] <==> x in b[..n]
      {
        InAllButLast(a, x);
        InAllButLast(b, x);
      }
      ClimbsIsUnique(a[..m], b[..n]);
    }
  }

  lemma InAllButLast(a: seq<nat>, x: nat)
    requires Climbs(a) && a != []
    ensures x in a[..|a| - 1] <==> x in a && x != a[|a| - 1]
  {
    if x in a[..|a| - 1] {
      var k :| 0 <= k < |a| - 1 && a[..|a| - 1][k] == x;
      assert a[k] == x;
    }
    if x in a && x != a[|a| - 1] {
      var k :| 0 <= k < |a| && a[k] == x;
      assert a[..|a| - 1][k] == x;
    }
  }

  /** Jobs that agree over some ids bake the same of them. */
  lemma {:induction false} SameBaked(a: Job, b: Job, ids: seq<nat>)
    requires forall i :: 0 <= i < |ids| ==> a.TileFor(ids[i]) == b.TileFor(ids[i])
    ensures Baked(a, ids) == Baked(b, ids)
  {
    if ids != [] {
      SameBaked(a, b, ids[..|ids| - 1]);
    }
  }

  lemma {:induction false} BakedAdds(job: Job, a: seq<nat>, b: seq<nat>)
    ensures Baked(job, a + b) == Baked(job, a) + Baked(job, b)
  {
    if b == [] {
      assert a + b == a;
    } else {
      var n := |b| - 1;
      BakedAdds(job, a, b[..n]);
      assert (a + b)[..|a| + n] == a + b[..n];
    }
  }

  lemma {:induction false} IdsInAdds(a: seq<Held>, b: seq<Held>)
    ensures IdsIn(a + b) == IdsIn(a) + IdsIn(b)
  {
    assert IdsIn(a + b) == IdsIn(a) + IdsIn(b);
  }

  lemma {:induction false} PickedIds(job: Job, stream: seq<Held>)
    ensures IdsIn(Picked(job, stream)) == AskedOf(job, IdsIn(stream))
  {
    if stream != [] {
      PickedIds(job, stream[..|stream| - 1]);
      IdsInAdds(Picked(job, stream[..|stream| - 1]), [stream[|stream| - 1]]);
      assert IdsIn(stream)[..|stream| - 1] == IdsIn(stream[..|stream| - 1]);
    }
  }

  /** A shard's job bakes the shard's own piece of what the whole bake picks. */
  lemma ShardBakesItsPiece(job: Job, stream: seq<Held>, shards: seq<Shard>, pieces: seq<seq<Held>>, i: nat, part: Job)
    requires job.ids == IdsIn(stream) && job.Valid()
    requires IsPlan(shards, pieces, Picked(job, stream)) && i < |shards| && IsShardOf(job, shards[i], part)
    ensures Baked(part, part.ids) == Baked(job, IdsIn(pieces[i]))
  {
    var picked, s := Picked(job, stream), shards[i];
    PieceClimbs(pieces, picked, i);
    AskedOfClimbs(part, part.ids);
    forall id: nat
      ensures id in AskedOf(part, part.ids) <==> id in IdsIn(pieces[i])
    {
      PieceIsWhatIsAsked(job, stream, shards, pieces, i, id);
      AskedOfHas(part, part.ids, id);
    }
    ClimbsIsUnique(AskedOf(part, part.ids), IdsIn(pieces[i]));
    OnlyAskedIsBaked(part, part.ids);
    forall k | 0 <= k < |pieces[i]|
      ensures part.TileFor(IdsIn(pieces[i])[k]) == job.TileFor(IdsIn(pieces[i])[k])
    {
      assert IdsIn(pieces[i])[k] in AskedOf(part, part.ids);
      AskedOfHas(part, part.ids, IdsIn(pieces[i])[k]);
    }
    SameBaked(part, job, IdsIn(pieces[i]));
  }

  lemma PieceClimbs(pieces: seq<seq<Held>>, picked: seq<Held>, i: nat)
    requires Flat(pieces) == picked && Climbs(IdsIn(picked)) && i < |pieces|
    ensures Climbs(IdsIn(pieces[i]))
  {
    PieceIsThere(pieces, i);
    var a := Start(pieces, i);
    hide Start;
    forall j, k | 0 <= j < k < |pieces[i]|
      ensures IdsIn(pieces[i])[j] < IdsIn(pieces[i])[k]
    {
      assert pieces[i][j] == picked[a + j] && pieces[i][k] == picked[a + k];
      assert IdsIn(picked)[a + j] < IdsIn(picked)[a + k];
    }
  }

  lemma IdsAreHeld(held: seq<Held>, id: nat)
    ensures id in IdsIn(held) <==> exists k :: 0 <= k < |held| && held[k].id == id
  {
    var ids := IdsIn(held);
    hide IdsIn;
    if id in ids {
      var k :| 0 <= k < |ids| && ids[k] == id;
      assert held[k].id == id;
    }
    if k :| 0 <= k < |held| && held[k].id == id {
      assert ids[k] == id;
    }
  }

  lemma PieceAt(pieces: seq<seq<Held>>, i: nat, k: nat)
    requires i < |pieces| && Start(pieces, i) <= k < Start(pieces, i + 1)
    ensures k < |Flat(pieces)| && k - Start(pieces, i) < |pieces[i]| &&
            pieces[i][k - Start(pieces, i)] == Flat(pieces)[k]
  {
    PieceIsThere(pieces, i);
    var a, b := Start(pieces, i), Start(pieces, i + 1);
    hide Start;
    assert Flat(pieces)[a..b][k - a] == Flat(pieces)[k];
  }

  lemma PieceRuns(shards: seq<Shard>, pieces: seq<seq<Held>>, picked: seq<Held>, i: nat)
    requires IsPlan(shards, pieces, picked) && i < |shards|
    ensures i < |pieces| && Start(pieces, i) + |pieces[i]| == Start(pieces, i + 1) && Flat(pieces) == picked
  {
    PieceIsThere(pieces, i);
  }

  /** A shard's run holds, of what is picked, exactly its piece's ids. */
  lemma PieceIsItsRun(shards: seq<Shard>, pieces: seq<seq<Held>>, picked: seq<Held>, i: nat, id: nat)
    requires IsPlan(shards, pieces, picked) && i < |shards|
    ensures i < |pieces| && (id in IdsIn(pieces[i]) <==> id in IdsIn(picked) && shards[i].Has(id))
  {
    hide *;
    PieceRuns(shards, pieces, picked, i);
    IdsAreHeld(pieces[i], id);
    IdsAreHeld(picked, id);
    var a := Start(pieces, i);
    if id in IdsIn(pieces[i]) {
      var k :| 0 <= k < |pieces[i]| && pieces[i][k].id == id;
      PieceAt(pieces, i, a + k);
      ShardHasItsPiece(shards, pieces, picked, i, a + k);
    }
    if id in IdsIn(picked) && shards[i].Has(id) {
      var k :| 0 <= k < |picked| && picked[k].id == id;
      ShardHasItsPiece(shards, pieces, picked, i, k);
      PieceAt(pieces, i, k);
    }
  }

  /** The ids of a piece are those of the stream that are asked for in its shard's run. */
  lemma PieceIsWhatIsAsked(job: Job, stream: seq<Held>, shards: seq<Shard>, pieces: seq<seq<Held>>, i: nat, id: nat)
    requires job.ids == IdsIn(stream) && IsPlan(shards, pieces, Picked(job, stream)) && i < |shards|
    ensures id in IdsIn(pieces[i]) <==> id in job.ids && job.Asked(id) && shards[i].Has(id)
  {
    hide *;
    PickedIds(job, stream);
    AskedOfHas(job, job.ids, id);
    PlanHasPieces(shards, pieces, Picked(job, stream));
    PieceIsItsRun(shards, pieces, Picked(job, stream), i, id);
  }

  lemma PlanHasPieces(shards: seq<Shard>, pieces: seq<seq<Held>>, picked: seq<Held>)
    requires IsPlan(shards, pieces, picked)
    ensures |pieces| == |shards| && Flat(pieces) == picked && Climbs(IdsIn(picked))
  {
  }

  /** Jobs, one for each shard. */
  ghost predicate AreShardsOf(job: Job, shards: seq<Shard>, parts: seq<Job>) {
    |parts| == |shards| && forall i :: 0 <= i < |shards| ==> IsShardOf(job, shards[i], parts[i])
  }

  /** What the jobs bake, one after another. */
  function BakedByAll(parts: seq<Job>): seq<Tile> {
    if parts == [] then []
    else BakedByAll(parts[..|parts| - 1]) + Baked(parts[|parts| - 1], parts[|parts| - 1].ids)
  }

  lemma {:induction false} BakedByFirst(job: Job, stream: seq<Held>, shards: seq<Shard>, pieces: seq<seq<Held>>,
                                        parts: seq<Job>, n: nat)
    requires job.ids == IdsIn(stream) && job.Valid() && IsPlan(shards, pieces, Picked(job, stream))
    requires AreShardsOf(job, shards, parts) && n <= |parts|
    ensures BakedByAll(parts[..n]) == Baked(job, IdsIn(Flat(pieces[..n])))
  {
    if n > 0 {
      hide *;
      PartsOneMore(job, shards, pieces, parts, n, Picked(job, stream));
      BakedByFirst(job, stream, shards, pieces, parts, n - 1);
      ShardBakesItsPiece(job, stream, shards, pieces, n - 1, parts[n - 1]);
      IdsInAdds(Flat(pieces[..n - 1]), pieces[n - 1]);
      BakedAdds(job, IdsIn(Flat(pieces[..n - 1])), IdsIn(pieces[n - 1]));
    }
  }

  lemma PartsOneMore(job: Job, shards: seq<Shard>, pieces: seq<seq<Held>>, parts: seq<Job>, n: nat, picked: seq<Held>)
    requires IsPlan(shards, pieces, picked) && AreShardsOf(job, shards, parts) && 0 < n <= |parts|
    ensures |shards| == |parts| == |pieces| && IsShardOf(job, shards[n - 1], parts[n - 1])
    ensures BakedByAll(parts[..n]) == BakedByAll(parts[..n - 1]) + Baked(parts[n - 1], parts[n - 1].ids)
    ensures Flat(pieces[..n]) == Flat(pieces[..n - 1]) + pieces[n - 1]
  {
    assert parts[..n][..n - 1] == parts[..n - 1] && pieces[..n][..n - 1] == pieces[..n - 1];
    hide IsShardOf, Baked, IdsIn;
  }

  /** The shards of a bake, one after another, bake exactly what it does in one. */
  lemma ShardsBakeTheWhole(job: Job, stream: seq<Held>, shards: seq<Shard>, pieces: seq<seq<Held>>, parts: seq<Job>)
    requires job.ids == IdsIn(stream) && job.Valid() && IsPlan(shards, pieces, Picked(job, stream))
    requires AreShardsOf(job, shards, parts)
    ensures BakedByAll(parts) == Baked(job, job.ids)
  {
    BakedByFirst(job, stream, shards, pieces, parts, |parts|);
    assert parts[..|parts|] == parts && pieces[..|parts|] == pieces;
    PickedIds(job, stream);
    OnlyAskedIsBaked(job, job.ids);
  }

  /**
   A fragment is what a shard's own bake writes when nothing tears its checkpoints: its whole archive,
   or nothing where it came to nothing.
   */
  ghost predicate IsBakeOf(part: Job, shard: Shard, kind: Kind, f: Fragment) {
    && f.from == shard.from && f.to == shard.to
    && match f.archive
       case None => Baked(part, part.ids) == []
       case Some(a) =>
         a.kind == kind &&
         IsWhole(part, PMTiles(Flat(a.directories), a.data, |Baked(part, part.ids)|, true))
  }

  ghost predicate AreBakesOf(parts: seq<Job>, shards: seq<Shard>, kind: Kind, fragments: seq<Fragment>) {
    && |fragments| == |parts| == |shards|
    && forall i :: 0 <= i < |shards| ==> IsBakeOf(parts[i], shards[i], kind, fragments[i])
  }

  lemma {:induction false} DirectoriesAreRuns(directories: seq<seq<Entry>>, data: Bytes)
    requires AreRuns(Flat(directories), data)
    ensures AllRuns(directories, data)
  {
    if directories != [] {
      var n := |directories| - 1;
      var rest, last := Flat(directories[..n]), directories[n];
      assert forall k :: 0 <= k < |last| ==> (rest + last)[|rest| + k] == last[k];
      assert forall k :: 0 <= k < |rest| ==> (rest + last)[k] == rest[k];
      DirectoriesAreRuns(directories[..n], data);
    }
  }

  lemma {:induction false} DirectoriesAreInside(directories: seq<seq<Entry>>, from: nat, to: nat)
    requires AllInside(Flat(directories), from, to)
    ensures AllHeld(directories, from, to)
  {
    if directories != [] {
      var n := |directories| - 1;
      var rest, last := Flat(directories[..n]), directories[n];
      assert forall k :: 0 <= k < |last| ==> (rest + last)[|rest| + k] == last[k];
      assert forall k :: 0 <= k < |rest| ==> (rest + last)[k] == rest[k];
      DirectoriesAreInside(directories[..n], from, to);
    }
  }

  /** What a shard's own bake writes is accepted, and holds the shard's tiles. */
  lemma BakeIsAccepted(job: Job, shard: Shard, part: Job, kind: Kind, f: Fragment)
    requires IsShardOf(job, shard, part) && part.NoEmptyTiles() && IsBakeOf(part, shard, kind, f)
    ensures f.archive.Some? ==> AllRuns(f.archive.value.directories, f.archive.value.data)
    ensures f.archive.Some? ==> AreRuns(Flat(f.archive.value.directories), f.archive.value.data)
    ensures f.archive.Some? ==> Wholesome(Flat(f.archive.value.directories))
    ensures HoldsItsOwn(f) && TilesOfFragment(f) == Baked(part, part.ids)
  {
    if f.archive.Some? {
      var a := f.archive.value;
      var archive := PMTiles(Flat(a.directories), a.data, |Baked(part, part.ids)|, true);
      WholeIsWholesome(part, archive);
      WholeIsInside(part, archive, shard.from, shard.to);
      assert AreRuns(Flat(a.directories), a.data);
      DirectoriesAreRuns(a.directories, a.data);
      DirectoriesAreInside(a.directories, shard.from, shard.to);
    }
  }

  lemma {:induction false} FragmentsAreBaked(job: Job, shards: seq<Shard>, parts: seq<Job>, kind: Kind,
                                             fragments: seq<Fragment>)
    requires AreShardsOf(job, shards, parts) && AreBakesOf(parts, shards, kind, fragments)
    requires forall i :: 0 <= i < |parts| ==> parts[i].NoEmptyTiles()
    ensures Readable(fragments) && AllHoldTheirOwn(fragments) && AllWholesome(fragments)
    ensures TilesOfFragments(fragments) == BakedByAll(parts)
  {
    if fragments != [] {
      var n := |fragments| - 1;
      hide *;
      LastBakes(job, shards, parts, kind, fragments);
      FragmentsAreBaked(job, shards[..n], parts[..n], kind, fragments[..n]);
      BakeIsAccepted(job, shards[n], parts[n], kind, fragments[n]);
      LastFragment(fragments, parts);
    }
  }

  lemma LastBakes(job: Job, shards: seq<Shard>, parts: seq<Job>, kind: Kind, fragments: seq<Fragment>)
    requires AreShardsOf(job, shards, parts) && AreBakesOf(parts, shards, kind, fragments) && fragments != []
    ensures var n := |fragments| - 1;
            && |shards| == |parts| == n + 1
            && IsBakeOf(parts[n], shards[n], kind, fragments[n]) && IsShardOf(job, shards[n], parts[n])
            && AreShardsOf(job, shards[..n], parts[..n]) && AreBakesOf(parts[..n], shards[..n], kind, fragments[..n])
  {
    hide IsBakeOf, IsShardOf;
  }

  lemma {:induction false} LastFragment(fragments: seq<Fragment>, parts: seq<Job>)
    requires fragments != [] && |parts| == |fragments|
    requires var n := |fragments| - 1;
             && Readable(fragments[..n]) && AllHoldTheirOwn(fragments[..n]) && AllWholesome(fragments[..n])
             && TilesOfFragments(fragments[..n]) == BakedByAll(parts[..n])
    requires var f := fragments[|fragments| - 1];
             && (f.archive.Some? ==> AllRuns(f.archive.value.directories, f.archive.value.data))
             && (f.archive.Some? ==> AreRuns(Flat(f.archive.value.directories), f.archive.value.data))
             && (f.archive.Some? ==> Wholesome(Flat(f.archive.value.directories)))
             && HoldsItsOwn(f) && TilesOfFragment(f) == Baked(parts[|parts| - 1], parts[|parts| - 1].ids)
    ensures Readable(fragments) && AllHoldTheirOwn(fragments) && AllWholesome(fragments)
    ensures TilesOfFragments(fragments) == BakedByAll(parts)
  {
    var n := |fragments| - 1;
    hide Wholesome, HoldsItsOwn, AllRuns, AreRuns, Baked, TilesOf, Flat;
    assert forall i :: 0 <= i < n ==> fragments[..n][i] == fragments[i];
  }

  lemma {:induction false} TilesAreSome(fragments: seq<Fragment>)
    requires Readable(fragments) && InOrder(fragments) && AllHoldTheirOwn(fragments) && AllWholesome(fragments)
    ensures SomeTile(fragments) <==> TilesOfFragments(fragments) != []
  {
    FragmentsRuns(fragments);
    SomeRuns(RunsOfFragments(fragments));
  }

  lemma SomeRuns(runs: seq<TileRun>)
    requires Counted(runs)
    ensures TilesIn(runs) == [] <==> runs == []
  {
    if runs != [] {
      var last := runs[|runs| - 1];
      RunIsAsLong(last.tileId, last.count, last.data);
    }
  }

  /** A shard is a run of ids, and ends where the next begins. */
  lemma ShardsFollow(shards: seq<Shard>, pieces: seq<seq<Held>>, picked: seq<Held>)
    requires IsPlan(shards, pieces, picked)
    ensures forall i :: 0 <= i < |shards| ==> shards[i].from < shards[i].to
    ensures forall i, j :: 0 <= i && j == i + 1 < |shards| ==> shards[i].to == shards[j].from
  {
    forall i | 0 <= i < |shards|
      ensures shards[i].from < shards[i].to
    {
      ShardEnds(shards, pieces, picked, i);
      hide IsPlan, Start;
      ShardHasItsPiece(shards, pieces, picked, i, Start(pieces, i));
    }
  }

  /**
   The refinement: whoever baked the shards, in whatever order and after however
   many attempts, if each fragment is what its shard's own bake writes then
   putting them together is never refused unless the bake comes to nothing, and
   holds exactly the tiles of the bake done in one, in order.
   */
  lemma ShardedIsWhole(job: Job, stream: seq<Held>, shards: seq<Shard>, pieces: seq<seq<Held>>, parts: seq<Job>,
                       kind: Kind, fragments: seq<Fragment>)
    requires job.ids == IdsIn(stream) && job.Valid() && IsPlan(shards, pieces, Picked(job, stream))
    requires AreShardsOf(job, shards, parts) && AreBakesOf(parts, shards, kind, fragments)
    requires forall i :: 0 <= i < |parts| ==> parts[i].NoEmptyTiles()
    ensures Readable(fragments) && AllWholesome(fragments)
    ensures InOrder(fragments) && Agree(fragments) && AllHoldTheirOwn(fragments)
    ensures SomeTile(fragments) <==> Baked(job, job.ids) != []
    ensures TilesOfFragments(fragments) == Baked(job, job.ids)
  {
    ShardsFollow(shards, pieces, Picked(job, stream));
    assert forall i :: 0 <= i < |shards| ==> IsBakeOf(parts[i], shards[i], kind, fragments[i]);
    assert InOrder(fragments) && Agree(fragments);
    hide IsPlan, AreBakesOf, AreShardsOf, InOrder, Agree;
    FragmentsAreBaked(job, shards, parts, kind, fragments);
    ShardsBakeTheWhole(job, stream, shards, pieces, parts);
    TilesAreSome(fragments);
  }
}
