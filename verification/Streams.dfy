/**
 What a bake walks: the ids its sources hold, read from each as its kind is, merged, and narrowed to
 what is selected.
 */
module Streams {
  import opened Archive
  import opened Coverage
  import Mbtiles
  import opened Plan
  import opened Scan
  import opened Selection
  import opened Sharded
  import opened TileIds
  import opened Union

  /** A source's tile list: a directory to be scanned, or a table to be swept along the curve. */
  datatype Source = Directory(root: seq<Slot>) | Table(archive: Mbtiles.MbtilesArchive) {
    ghost predicate Valid() {
      if Directory? then InOrder(root) else archive.Valid()
    }

    /** A directory of which a leaf that would have to be read points at another. */
    ghost predicate Refused(span: Span) {
      Directory? && Refuses(root, span.from, span.to)
    }

    ghost predicate Has(id: nat)
      requires Valid()
    {
      if Directory? then Stored(root, id) else exists r :: r in archive.tiles && r.Shows(ZxyOf(id))
    }
  }

  ghost predicate AllValid(sources: seq<Source>) {
    forall j :: 0 <= j < |sources| ==> sources[j].Valid()
  }

  ghost predicate SomeHas(sources: seq<Source>, id: nat)
    requires AllValid(sources)
  {
    exists j :: 0 <= j < |sources| && sources[j].Has(id)
  }

  ghost function HaveIt(sources: seq<Source>, id: nat): nat
    requires AllValid(sources)
  {
    if sources == [] then 0
    else HaveIt(sources[..|sources| - 1], id) + if sources[|sources| - 1].Has(id) then 1 else 0
  }

  /** Exactly what the sources hold of a run, in order. */
  ghost predicate IsStream(ids: seq<nat>, sources: seq<Source>, span: Span)
    requires AllValid(sources)
  {
    Climbs(ids) && forall id: nat :: id in ids <==> SomeHas(sources, id) && span.Has(id)
  }

  /** One source's ids of a run, in chunks; none where its directory is nested. */
  method IdsOf(source: Source, span: Span) returns (chunks: Option<seq<seq<nat>>>)
    requires source.Valid()
    ensures chunks.None? <==> source.Refused(span)
    ensures chunks.Some? ==> Climbs(Flat(chunks.value)) && forall id: nat :: id in Flat(chunks.value) <==>
            source.Has(id) && span.Has(id)
  {
    match source
    case Directory(root) =>
      ListingIsExact(root, span.from, span.to);
      hide Stored, Listing, Refuses;
      chunks := ScanTileIds(root, span.from, span.to);
    case Table(archive) =>
      hide ZxyOf, Mbtiles.Row.Shows;
      var swept := archive.TileIds(span.from, span.to);
      chunks := Some(swept);
  }

  ghost predicate Gathered(sources: seq<Source>, span: Span, chunks: seq<seq<seq<nat>>>)
    requires AllValid(sources)
  {
    |chunks| <= |sources| && forall j :: 0 <= j < |chunks| ==>
      Climbs(Flat(chunks[j])) && forall id: nat :: id in Flat(chunks[j]) <==> sources[j].Has(id) && span.Has(id)
  }

  lemma {:induction false} HoldersHaveIt(sources: seq<Source>, lists: seq<seq<nat>>, span: Span, id: nat)
    requires AllValid(sources) && |lists| == |sources| && span.Has(id)
    requires forall j :: 0 <= j < |lists| ==> (id in lists[j] <==> sources[j].Has(id))
    ensures Holders(lists, id) == HaveIt(sources, id)
  {
    if sources != [] {
      var n := |sources| - 1;
      HoldersHaveIt(sources[..n], lists[..n], span, id);
      hide Source.Has;
    }
  }

  /** The union of all the sources' ids of a run, each with how many sources hold it. */
  method ScanSources(sources: seq<Source>, span: Span) returns (stream: Option<seq<Held>>)
    requires AllValid(sources)
    ensures stream.None? <==> exists j :: 0 <= j < |sources| && sources[j].Refused(span)
    ensures stream.Some? ==> IsStream(IdsIn(stream.value), sources, span)
    ensures stream.Some? ==> forall k :: 0 <= k < |stream.value| ==>
            stream.value[k].sources == HaveIt(sources, stream.value[k].id)
  {
    hide Source.Has, Source.Refused, Climbs, Span.Has;
    var chunks: seq<seq<seq<nat>>> := [];
    for j := 0 to |sources|
      invariant |chunks| == j && Gathered(sources, span, chunks)
      invariant forall k :: 0 <= k < j ==> !sources[k].Refused(span)
    {
      var some := IdsOf(sources[j], span);
      if some.None? {
        return None;
      }
      chunks := chunks + [some.value];
    }
    GatheredAscend(sources, span, chunks);
    var merged := UnionOfTileIds(chunks);
    MergedIsStream(sources, span, chunks, merged);
    forall k | 0 <= k < |merged|
      ensures merged[k].sources == HaveIt(sources, merged[k].id)
    {
      MergedCounts(sources, span, chunks, merged, k);
    }
    stream := Some(merged);
  }

  lemma GatheredAscend(sources: seq<Source>, span: Span, chunks: seq<seq<seq<nat>>>)
    requires AllValid(sources) && Gathered(sources, span, chunks)
    ensures forall j :: 0 <= j < |chunks| ==> Ascending(Flat(chunks[j]))
  {
    hide Source.Has;
  }

  lemma ListedWhereHeld(sources: seq<Source>, span: Span, chunks: seq<seq<seq<nat>>>, id: nat)
    requires AllValid(sources) && Gathered(sources, span, chunks) && |chunks| == |sources|
    ensures forall j :: 0 <= j < |chunks| ==> (id in ListsOf(chunks)[j] <==> sources[j].Has(id) && span.Has(id))
  {
    hide Source.Has, Climbs, Span.Has, Flat;
  }

  lemma InSomeIsHeld(sources: seq<Source>, lists: seq<seq<nat>>, span: Span, id: nat)
    requires AllValid(sources) && |lists| == |sources|
    requires forall j :: 0 <= j < |lists| ==> (id in lists[j] <==> sources[j].Has(id) && span.Has(id))
    ensures InSome(lists, id) <==> SomeHas(sources, id) && span.Has(id)
  {
    hide Source.Has, Span.Has;
    if SomeHas(sources, id) && span.Has(id) {
      var j :| 0 <= j < |sources| && sources[j].Has(id);
      assert id in lists[j];
    }
  }

  lemma MergedHas(sources: seq<Source>, span: Span, chunks: seq<seq<seq<nat>>>, id: nat)
    requires AllValid(sources) && Gathered(sources, span, chunks) && |chunks| == |sources|
    ensures InSome(ListsOf(chunks), id) <==> SomeHas(sources, id) && span.Has(id)
    ensures span.Has(id) ==> Holders(ListsOf(chunks), id) == HaveIt(sources, id)
  {
    hide *;
    ListedWhereHeld(sources, span, chunks, id);
    InSomeIsHeld(sources, ListsOf(chunks), span, id);
    if span.Has(id) {
      HoldersHaveIt(sources, ListsOf(chunks), span, id);
    }
  }

  lemma IdIsIn(stream: seq<Held>, k: nat)
    requires k < |stream|
    ensures stream[k].id in IdsIn(stream)
  {
    assert IdsIn(stream)[k] == stream[k].id;
  }

  lemma MergedIsStream(sources: seq<Source>, span: Span, chunks: seq<seq<seq<nat>>>, merged: seq<Held>)
    requires AllValid(sources) && Gathered(sources, span, chunks) && |chunks| == |sources|
    requires Climbs(IdsIn(merged)) && forall id: nat :: id in IdsIn(merged) <==> InSome(ListsOf(chunks), id)
    ensures IsStream(IdsIn(merged), sources, span)
  {
    hide Source.Has, Climbs, Span.Has, Gathered, InSome, SomeHas, Flat, IdsIn, AllValid;
    forall id: nat
      ensures InSome(ListsOf(chunks), id) <==> SomeHas(sources, id) && span.Has(id)
    {
      MergedHas(sources, span, chunks, id);
    }
  }

  lemma MergedCounts(sources: seq<Source>, span: Span, chunks: seq<seq<seq<nat>>>, merged: seq<Held>, k: nat)
    requires AllValid(sources) && Gathered(sources, span, chunks) && |chunks| == |sources| && k < |merged|
    requires IsStream(IdsIn(merged), sources, span) && merged[k].sources == Holders(ListsOf(chunks), merged[k].id)
    ensures merged[k].sources == HaveIt(sources, merged[k].id)
  {
    hide Source.Has, Climbs, Span.Has, Gathered, SomeHas, Holders, HaveIt, Flat, IdsIn, AllValid;
    IdIsIn(merged, k);
    MergedHas(sources, span, chunks, merged[k].id);
  }

  /** The bake of a selection over a stream of ids. */
  function JobOver(ids: seq<nat>, selection: Selection, worldY: real -> real, merge: nat -> Option<Bytes>): Job {
    Job(ids, IdSpanOf(selection).from, IdSpanOf(selection).to, (id: nat) => Selects(selection, id, worldY), merge)
  }

  /** What it writes is what some source holds, the selection asks for, and the merge answers. */
  lemma BakesWhatIsSelected(ids: seq<nat>, sources: seq<Source>, selection: Selection, worldY: real -> real,
                            merge: nat -> Option<Bytes>, id: nat)
    requires AllValid(sources) && IsStream(ids, sources, IdSpanOf(selection))
    ensures JobOver(ids, selection, worldY, merge).Wanted(id) <==>
            SomeHas(sources, id) && Selects(selection, id, worldY) && merge(id).Some?
    ensures JobOver(ids, selection, worldY, merge).Asked(id) <==> Selects(selection, id, worldY)
  {
    hide Selects, IdSpanOf, SomeHas, InBox;
    SelectedIsTheSpan(selection, id, worldY);
  }

  /** A run of ids begun only after one of them. */
  function Past(span: Span, last: int): Span
    requires -1 <= last
  {
    span.(from := Later(span.from, last + 1))
  }

  /**
   Picking up after an id, the sources need only be read from there: that is the rest of the stream,
   and what is left of the bake.
   */
  lemma ResumingReadsTheRest(ids: seq<nat>, rest: seq<nat>, sources: seq<Source>, selection: Selection,
                             worldY: real -> real,
                             merge: nat -> Option<Bytes>, last: int)
    requires AllValid(sources) && -1 <= last
    requires IsStream(ids, sources, IdSpanOf(selection)) && IsStream(rest, sources, Past(IdSpanOf(selection), last))
    ensures ids == UpTo(ids, last) + rest
    ensures var job := JobOver(ids, selection, worldY, merge);
            Baked(job, ids) == BakedTo(job, last) + Baked(job.(ids := rest), rest)
  {
    var job := JobOver(ids, selection, worldY, merge);
    UpToHolds(ids, last);
    var n := |UpTo(ids, last)|;
    forall id: nat
      ensures id in ids[n..] <==> id in rest
    {
      assert id in ids <==> id in ids[..n] || id in ids[n..];
      hide SomeHas, IdSpanOf;
    }
    hide SomeHas, IdSpanOf;
    ClimbsIsUnique(ids[n..], rest);
    assert ids == ids[..n] + ids[n..];
    BakedAdds(job, ids[..n], rest);
    SameBaked(job, job.(ids := rest), rest);
  }

  /** A shard lies within the run its bake was itself asked for. */
  ghost predicate LiesWithin(selection: Selection, shard: Shard) {
    selection.span.Some? ==>
      selection.span.value.from <= shard.from &&
        (selection.span.value.to.Until? ==> shard.to <= selection.span.value.to.id)
  }

  lemma ShardSpan(selection: Selection, shard: Shard, id: nat)
    requires LiesWithin(selection, shard)
    ensures IdSpanOf(ShardOf(selection, shard.from, shard.to)).Has(id) <==> IdSpanOf(selection).Has(id) && shard.Has(id)
  {
    hide FirstIdAt;
  }

  /** A shard scanned and baked on its own, under its own selection, is that shard of the whole bake. */
  lemma SelectedShardIsAShard(ids: seq<nat>, part: seq<nat>, sources: seq<Source>, selection: Selection,
                              worldY: real -> real,
                              merge: nat -> Option<Bytes>, shard: Shard)
    requires AllValid(sources) && LiesWithin(selection, shard)
    requires IsStream(ids, sources, IdSpanOf(selection)) &&
             IsStream(part, sources, IdSpanOf(ShardOf(selection, shard.from, shard.to)))
    ensures IsShardOf(JobOver(ids, selection, worldY, merge), shard,
                      JobOver(part, ShardOf(selection, shard.from, shard.to), worldY, merge))
  {
    var own := ShardOf(selection, shard.from, shard.to);
    var whole, mine := JobOver(ids, selection, worldY, merge), JobOver(part, own, worldY, merge);
    hide Selects, IdSpanOf, SomeHas, ShardOf, LiesWithin;
    forall id: nat
      ensures id in mine.ids <==> id in whole.ids && shard.Has(id)
      ensures shard.Has(id) ==> mine.TileFor(id) == whole.TileFor(id) && mine.Asked(id) == whole.Asked(id)
    {
      ShardSpan(selection, shard, id);
      BakesWhatIsSelected(ids, sources, selection, worldY, merge, id);
      BakesWhatIsSelected(part, sources, own, worldY, merge, id);
      SelectsHere(selection, shard, id, worldY);
    }
  }

  lemma SelectsHere(selection: Selection, shard: Shard, id: nat, worldY: real -> real)
    requires LiesWithin(selection, shard)
    ensures Selects(ShardOf(selection, shard.from, shard.to), id, worldY) <==>
            shard.Has(id) && Selects(selection, id, worldY)
  {
    ShardSelects(selection, shard.from, shard.to, id, worldY);
  }

  lemma PickedIsSelected(job: Job, stream: seq<Held>, i: nat)
    requires i < |Picked(job, stream)|
    ensures job.Asked(Picked(job, stream)[i].id)
  {
    PickedHas(job, stream, Picked(job, stream)[i]);
  }

  lemma SelectedIsInTheRun(selection: Selection, worldY: real -> real, id: nat)
    requires Selects(selection, id, worldY) && selection.span.Some?
    ensures selection.span.value.Has(id)
  {
    hide InBox, ZxyOf;
  }

  /** Every planned shard does. */
  lemma PlannedLiesWithin(stream: seq<Held>, selection: Selection, worldY: real -> real, merge: nat -> Option<Bytes>,
                          shards: seq<Shard>, pieces: seq<seq<Held>>, i: nat)
    requires i < |shards| && IsPlan(shards, pieces, Picked(JobOver(IdsIn(stream), selection, worldY, merge), stream))
    ensures LiesWithin(selection, shards[i])
  {
    var job := JobOver(IdsIn(stream), selection, worldY, merge);
    var picked := Picked(job, stream);
    assert |pieces| == |shards|;
    hide IsPlan, Picked, IdSpanOf, Selects;
    ShardEnds(shards, pieces, picked, i);
    if selection.span.Some? {
      var first, next := Start(pieces, i), Start(pieces, i + 1);
      var last := if next < |picked| then next else |picked| - 1;
      PickedIsSelected(job, stream, first);
      PickedIsSelected(job, stream, last);
      SelectedIsInTheRun(selection, worldY, picked[first].id);
      SelectedIsInTheRun(selection, worldY, picked[last].id);
    }
  }

  /** The streams of a plan's shards, each read on its own. */
  ghost predicate AreShardStreams(sources: seq<Source>, selection: Selection, shards: seq<Shard>, ids: seq<seq<nat>>)
    requires AllValid(sources)
  {
    |ids| == |shards| && forall i :: 0 <= i < |shards| ==>
      IsStream(ids[i], sources, IdSpanOf(ShardOf(selection, shards[i].from, shards[i].to)))
  }

  function JobsOver(ids: seq<seq<nat>>, selection: Selection, shards: seq<Shard>, worldY: real -> real,
                    merge: nat -> Option<Bytes>): (parts: seq<Job>)
    requires |ids| == |shards|
    ensures |parts| == |shards|
    ensures forall i :: 0 <= i < |shards| ==>
            parts[i] == JobOver(ids[i], ShardOf(selection, shards[i].from, shards[i].to), worldY, merge)
  {
    seq(|shards|, i requires 0 <= i < |shards| =>
        JobOver(ids[i], ShardOf(selection, shards[i].from, shards[i].to), worldY, merge))
  }

  /**
   Planned over a selection's stream, and its shards each scanned and baked by
   somebody who knows only the selection and the shard's two ends, the parts are
   the shards of the whole bake: so what `Sharded.ShardedIsWhole` and `Overlaps.ShardedAnswers` say holds.
   */
  lemma PlannedShardsAreParts(stream: seq<Held>, sources: seq<Source>, selection: Selection, worldY: real -> real,
                              merge: nat -> Option<Bytes>,
                              shards: seq<Shard>, pieces: seq<seq<Held>>, ids: seq<seq<nat>>)
    requires AllValid(sources) && IsStream(IdsIn(stream), sources, IdSpanOf(selection))
    requires IsPlan(shards, pieces, Picked(JobOver(IdsIn(stream), selection, worldY, merge), stream))
    requires AreShardStreams(sources, selection, shards, ids)
    ensures AreShardsOf(JobOver(IdsIn(stream), selection, worldY, merge), shards,
                        JobsOver(ids, selection, shards, worldY, merge))
  {
    hide IsPlan, Picked, IdSpanOf, IsStream, IsShardOf, ShardOf, LiesWithin, JobOver;
    forall i | 0 <= i < |shards|
      ensures IsShardOf(JobOver(IdsIn(stream), selection, worldY, merge), shards[i],
                        JobsOver(ids, selection, shards, worldY, merge)[i])
    {
      PlannedLiesWithin(stream, selection, worldY, merge, shards, pieces, i);
      SelectedShardIsAShard(IdsIn(stream), ids[i], sources, selection, worldY, merge, shards[i]);
    }
  }
}
