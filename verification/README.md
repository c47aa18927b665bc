# pmtiles-swarm, verified

A model of the parts of pmtiles-swarm that have to be right for a map to be right, with proofs:

- **Bakes.** Tile ids of many sources are merged into one ascending stream, tiles are merged in batches and written to
  one archive, and progress is written down so that a bake can be stopped, killed and picked up again
  (`Union`, `Scan`, `Selection`, `Streams`, `Archive`, `Writer`, `Storing`, `Coverage`, `Checkpoint`, `Bake`).
- **Bakes shared out.** A bake is cut into shards, shards are lent to workers that may lose them, come back late or
  upload something else, and what comes back is appended into one archive (`Plan`, `Assemble`, `Whole`, `Sharded`,
  `Overlaps`, `SharedBake`, `Leasing`, `Books`, `Restarts`, `Distributed`, `Requests`, `Steps`, `Stragglers`,
  `Removals`, `Workers`, `Service`, `Finishing`).
- **Cutlines.** A shape's bucket index, the cheap classification of tiles, the scanline mask, which ground a tile
  covers, and the exact distance transform that feathers a mask (`Geometry`, `Cutline`, `Classify`, `Raster`,
  `Rectangles`, `Ground`, `DistanceTransform`, `FeatherMask`).
- **The MBTiles sweep.** An unordered table read as one sorted stream of ids along the one Hilbert curve (`TileIds`,
  `Curve`, `Mbtiles`).
- **Smaller codecs.** Terrain pixels, upscaling with a seamless blur, the heights cache, contour tiles and the feed
  (`Terrain`, `Blur`, `HeightsCache`, `Contour`, `ContourTile`, `Feed`, `Item`).

The result that the first two parts lead up to is `Service.ServeFromTheStart`: over every run of requests to a
coordinator, whoever makes them and whatever gets lost, late, retried or restarted, if every fragment delivered is what
some run of its shard's own bake came to, then whatever is put together answers every tile id as one uninterrupted local
bake does -- and where no checkpoint was torn, it is that bake's archive, tile for tile. Putting together fails only
where the bake comes to nothing, or where fragments are missing because the job was published or thrown away before.
That a worker which scans the sources for itself delivers what is asked of it here is `Workers.BakeLent`; and that one
such worker, asking again and again, is enough to get a job done is `Finishing.BakedByOne`.

Code that changes things step by step is modelled that way: `PMTilesWriter`, `WorkDir`, `Session`, `MbtilesArchive`,
`HeightsCache` and `DistributedBakes` are classes whose methods are tied to functions of their old state, and the
properties are proved of those functions. Numbers that are floating point in the program are `real` here, and `NaN` is
`None`. `exp`, `tan`, `sqrt` and the projection of latitudes are parameters.

## What turned out not to hold

Each of these has a concrete run or input, and beside it the exact condition under which the property does hold.

- **An empty tile confuses the writer.** An empty tile shares its offset with whatever is stored next, so a later empty
  tile can be taken to carry on a run of another length: `Archive.AnEmptyTileIsConfused`. Adding a tile appends exactly
  that tile if and only if that does not happen: `Archive.WritingAppends`. It never happens where no tile is empty, and
  the bakes below are of merges that answer no empty tile.
- **A checkpoint killed half way may be neither the old nor the new.** A last run that had grown is read back with the
  old state, and the next run writes some of it a second time: the archive is no longer tile for tile the one a single
  run writes. It still answers every id alike: `Checkpoint.TornIsSane`, `Bake.BakeUntilDone`, `Overlaps.ShardedAnswers`.
- **A job's fragments are removed before its record says that it is done.** Publishing removes them, and only then is
  the record written: a coordinator that dies in between picks the job up again as one to be put together, and it fails
  for good, though it was published: `Removals.PublishedBeforeItsRecord`. So does a second assembly, begun by trying a
  job again while it is being published: `Removals.PublishedUnderASecond`. And a job that is discarded while a write of
  its record is pending comes back after a restart with all shards done and no fragments:
  `Removals.DiscardedComesBack`. No step brings a fragment back: `Removals.NothingHelps`. A job can be put together, so
  far as its fragments go, if and only if every shard that is done with one has it on disk
  (`Distributed.DistributedBakes.Assemble`); one picked up after a restart has them if and only if what its record says
  is done does (`Restarts.ReloadedIsIntact`); and none is missing unless the job was published or discarded
  (`Restarts.OnlyClearedIsMissing`).
- **A shard can be tried more often than it may be.** Every stop and retry of a job while a shard is out allows one
  more try: `Leasing.EveryStopCostsATry`. That is all: `Distributed.PhaseSafety`, `Leasing.GrantsAreBounded`.
- **A late upload can take a shard from whoever has it now.** One that does not fit releases the shard though it comes
  from a former holder, and can stall the job: `Stragglers.AStaleUploadCanStall`; exactly when, is
  `Stragglers.StaleUploadTakes` and `Stragglers.StaleUploadStalls`.
- **A superseded plan can fail a running job.** Then shards are out though the job has failed:
  `Stragglers.ASupersededPlanCanFailLate`. The invariants are stated with that failure as their only exception, and
  `Stragglers.LateFailureLosesALease` and `Stragglers.LapsingRecovers` say what becomes of such a shard.
- **Setting the oldest cached key again can evict it at once,** because overwriting a key does not move it:
  `HeightsCache.OldestCanEvictItself`, and exactly when, `HeightsCache.OldKeySurvivesIff`. A value too big for the
  whole budget leaves the key's earlier value in place, and a hit then is the last value that was kept.
- **A mask from several buckets can be wrong,** because only the crossings of edges near the tile are paired:
  nine copies of one ring, prepared and rasterized, leave every pixel they cover east of the first bucket unset:
  `Rectangles.NineCopiesMislead`. Exactly when a pixel is right, is `Rectangles.PixelIsRight`; every pixel off the edges
  is where no edge reaches the tile's rows but those listed under it, `Rectangles.AloneIsRight`. With a single bucket
  that is so of every tile, and every rectangle from bounds has a single bucket.
- **A directory whose runs overlap is not listed in order,** and what they share is listed twice; a bake killed half way
  into a checkpoint can leave one. A directory is listed in ascending order if and only if each of its runs ends before
  the next begins: `Scan.ListedInOrderIff`.

## Model

| member | source | states |
|---|---|---|
| Service.ServeFromTheStart | src/distributed.js:187-234 | From an empty coordinator, over every run of requests, with writes that land late, removals under way and deaths at any point: if each delivery is honest for the lease it came on, every job is put together if and only if its bake comes to something and no fragment of it is missing, which one only is where a request had published or thrown away the job; what is put together is of the kind of tile that was commissioned, answers every id as one bake of the whole does, and is that bake's archive, as many tiles as that writes, where no checkpoint was torn. Every loan is of a job begun before, that workers may share in or this node asked for, that was asked for if any was, and that its worker has not given back since the node last came up; and what a worker is not offered is exactly what it has given back. If nobody cancels, retries, gives back, leaves, discards or dies, no job's shards were lent more often than its shards times maxAttempts. And the run is one of those steps, from an empty world on |
| Service.Serve | src/distributed.js:187-234 | Any sequence of leases, heartbeats, deliveries, failures, give-backs, cancels, retries, discards, removals fragment by fragment, saves that land whenever they do, deaths and restarts keeps the coordinator's invariant; a running job always has a shard open, one being put together has all done; attempts are bounded but for one more each time a job was stopped; no job's fragments go that no request had removed; and what the coordinator holds, in memory and on disk, goes through exactly the worlds the requests one after another make of it, each step told from what was held before it alone (`Steps.Does`): every request does what it is for and nothing else |
| Service.LoansAreBounded | src/distributed.js:720-778 | Without cancel, retry, give-back, leave, discard or death, the loans granted of a job plus its earlier tries number at most its shards times maxAttempts, plus one for each time a job had been stopped |
| Requests.AnsweredFromNothing | src/distributed.js:720-778 | Whatever was asked of a new coordinator, every loan it made was due, judged by the requests and answers before it alone |
| Finishing.OneShard | src/distributed.js:720-927 | A worker that asks for a job with a shard waiting is lent one, delivers it, and that shard is done and no other changed |
| Finishing.FinishAlone | src/distributed.js:720-927 | One worker, asking for one job over and over and delivering honestly while no lease lapses, brings it to be put together after exactly as many loans as shards were waiting |
| Finishing.BakedByOne | src/distributed.js:650-1466 | A planned job of any phase that may be tried again, tried again and then done by one worker alone, is put together if and only if its bake comes to something, and as that bake |
| Finishing.FailsUntilGivenUp | src/distributed.js:1269-1279 | A waiting shard that fails goes back in the queue until it has been tried as often as it may be, and is given up on then |
| Finishing.RetryStartsOver | src/distributed.js:650-677 | Tried again, a shard that was given up on waits again and can fail as often as any before it is given up on again |
| Distributed.LeaseSafety | src/distributed.js:1252-1293 | Each shard that is out is out on one lease, which no other shard of any job is; it is registered and points back at the shard, unless a late failure came between |
| Distributed.PhaseSafety | src/distributed.js:1333-1348 | A running job has a shard waiting or out; one assembling, importing or finished has every shard done; attempts exceed maxAttempts only by how often a job was stopped |
| Distributed.DistributedBakes.constructor | src/distributed.js:240-253 | Each setting is what it was configured as, 120 seconds and 4 tries where it was not or was nothing, and never below 15 and 1; and an invariant holds of a coordinator with nothing in it |
| Distributed.DistributedBakes.Start | src/distributed.js:504-600 | A job exists at once on the terms it was asked for, is written down, waits to be planned, and nothing else changes; it is refused, and nothing changes, if and only if its stack has a job that has not ended |
| Distributed.DistributedBakes.PlanJob | src/distributed.js:1375-1404 | The job gets the one fair plan of what it picks, or fails where that is nothing, and is left alone if it has moved on |
| Distributed.DistributedBakes.LeaseShard | src/distributed.js:720-778 | After taking back what lapsed, lends the first waiting shard of the oldest running job, of those this worker may have: asked for if one was, not given back by it, and shared with workers unless this node itself asks; nothing is lent only where no such job has a shard waiting |
| Distributed.TermsHold | src/distributed.js:534-600 | Whatever happens to a job, it stays on the terms it was asked for: when, and whether workers share in it |
| Distributed.DistributedBakes.Heartbeat | src/distributed.js:842-854 | Only the shard's current holder is believed, and only its lease is extended |
| Distributed.DistributedBakes.CompleteShard | src/distributed.js:866-927 | Whoever has or once had a shard may deliver it while it is not done and its job runs, and is told that it is not wanted otherwise; a fragment outside its shard is refused and lets the shard go; one accepted is stored and ends every lease of the shard |
| Distributed.DistributedBakes.GiveBackShard | src/distributed.js:962-977 | Only the current holder may give its shard back; that counts no try, and the job is not offered to that worker again |
| Distributed.DistributedBakes.HandBack | src/distributed.js:984-997 | A shard is put back uncounted by its current holder and by nobody else |
| Distributed.DistributedBakes.Fail | src/distributed.js:1005-1010 | Only the current holder may fail its shard, which goes back in the queue or is given up once tried often enough |
| Distributed.DistributedBakes.Sweep | src/distributed.js:1299-1326 | Exactly the shards whose lease lapsed are let go, and jobs move on as that makes them |
| Distributed.DistributedBakes.Cancel | src/distributed.js:607-619 | A job that has not ended is stopped and none of its shards is out any more |
| Distributed.DistributedBakes.RetryJob | src/distributed.js:650-677 | What is done stays done, what was given up is waiting again untried, and a job without a plan is planned anew |
| Distributed.DistributedBakes.Discard | src/distributed.js:626-639 | Exactly a job that has ended or stalled is forgotten, with its fragments and the record there is; a write of its record that is still to come may land after |
| Distributed.DistributedBakes.Forgo | src/distributed.js:626-639 | The part of that done at once: the job is gone and its leases with it, its fragments are about to go, and its record may yet be written |
| Distributed.DistributedBakes.Erase | src/distributed.js:626-639 | A removal under way takes any of the fragments, and nothing else |
| Distributed.DistributedBakes.Finish | src/distributed.js:1451-1459 | Publishing ends the job, and its fragments are about to go while its record on disk says what it said |
| Distributed.DistributedBakes.GoOn | src/distributed.js:1356-1373 | What background work comes to is taken in every phase but cancelled, a late failure of superseded work included; what publishing removes is Finish's |
| Distributed.DistributedBakes.Assemble | src/distributed.js:1406-1466 | Refused for what is missing if and only if a fragment of a done shard is not on disk, which it is unless the job was published or discarded; with honest fragments, put together if and only if none is missing and the bake comes to something, and then the archive answers for the whole job and is of the kind of tile it was commissioned for |
| Distributed.DistributedBakes.Save | src/distributed.js:1554-1591 | The record on disk is the job as it is now |
| Distributed.DistributedBakes.BeginSave | src/distributed.js:1554-1591 | A write of the record as it is now may land at any time from here on |
| Distributed.DistributedBakes.LandSave | src/distributed.js:1562-1577 | It lands, whatever has become of the job since, one that was discarded included; the invariant holds all the same |
| Distributed.DistributedBakes.WorkLate | src/distributed.js:1356-1373 | Background work of a job that was discarded comes to something, and that too may be written down |
| Distributed.DistributedBakes.Load | src/distributed.js:273-321 | After dying, the coordinator is as its records have it but for shards whose fragments are on disk, which are done; nobody counts as having given anything back; the invariant holds again, whatever has been removed and whichever writes landed; what was accepted with a fragment is still done but of a job whose fragments were being removed |
| Restarts.RestartKeeps | src/distributed.js:273-321 | From any records, however old each was when the node died, and any fragments left, loading re-establishes every invariant |
| Restarts.RestartLosesNothing | src/distributed.js:466-493 | A shard accepted with a fragment before the node died is done after it if and only if its record says so or its fragment is there, and what is there lies inside its shard; it is there unless the job's fragments had begun to be removed |
| Restarts.ReloadedIsIntact | src/distributed.js:466-493 | A job picked up from its record has the fragments of all its done shards if and only if those its record says are done have theirs |
| Restarts.OthersAreAsWritten | src/distributed.js:273-321 | A record of a job neither running, stalled nor stopped stands as it is, but that one being imported is put together again |
| Restarts.OnlyClearedIsMissing | src/distributed.js:1406-1466 | In every reachable state, only of a job that was published or discarded is a fragment missing |
| Removals.PublishedBeforeItsRecord | src/distributed.js:1444-1459 | A job is published, its fragments go, the node dies before the record is written: it is picked up to be put together, cannot be, and cannot be after another try |
| Removals.PublishedUnderASecond | src/distributed.js:650-677 | A job tried again while it is being published loses its fragments under the second assembly, and has failed |
| Removals.DiscardedComesBack | src/distributed.js:626-639 | A job discarded while its record is being written is back after a restart, all done and without fragments |
| Removals.NothingHelps | src/distributed.js:884-914 | Over every run of steps, a missing fragment stays missing, since its shard stays done |
| Workers.Commissioned | src/distributed.js:504-600 | Scanning the sources gives a job over exactly what they hold and the selection asks for; none if and only if a directory that would have to be read is nested too deep |
| Workers.BakeLent | src/distributed.js:1159-1248 | A worker that scans the sources for itself under the selection narrowed to its shard, and bakes, however often it is killed, delivers what is honest of that shard of the coordinator's job |
| Workers.HonestToItsLease | src/distributed.js:866-927 | And that is what an honest delivery on its lease is over every run of requests |
| Leasing.RunIsSound | src/distributed.js:1269-1348 | Over every run of steps of a job: leases, phases, attempts and shards stay consistent, with a late failure as the only exception |
| Leasing.RunKeepsDone | src/distributed.js:884-914 | Over every run, a shard once accepted stays done with the fragment it was accepted with |
| Leasing.GrantsAreBounded | src/distributed.js:748-751 | Left to itself a job's grants and tries together are at most its shards times maxAttempts |
| Leasing.EveryStopCostsATry | src/distributed.js:607-614 | For any number of stops there is a run with that many in which a shard is tried that much more often |
| Stragglers.StaleUploadTakes | src/distributed.js:866-927 | A delivery on another lease takes a shard from its holder if and only if that lease was once of this shard and the upload does not fit it |
| Stragglers.StaleUploadStalls | src/distributed.js:1269-1279 | Such a delivery stalls the job if and only if the shard has been tried as often as it may be and no other is open |
| Stragglers.AStaleUploadCanStall | src/distributed.js:866-927 | Lending, lapsing and lending again gets to where it does |
| Stragglers.ASupersededPlanCanFailLate | src/distributed.js:1356-1373 | The run in which a first plan's failure lands after the second plan's shards are out |
| Stragglers.LateFailureLosesALease | src/distributed.js:866-883 | After such a failure and a retry the holder still has its shard, unless it delivered in between and its lease was forgotten |
| Stragglers.LapsingRecovers | src/distributed.js:1299-1326 | Sweeping after the lease lapsed puts such a shard back in the queue |
| Sharded.ShardedIsWhole | src/bake-shards.js:125-228 | If every fragment is what its shard's own bake writes, assembling is refused only where the bake comes to nothing, and the fragments' tiles are exactly those of the unsharded bake, in order |
| Sharded.ShardsBakeTheWhole | src/bake-shards.js:51-101 | Baking the planned shards one after another writes exactly what baking the whole stream does |
| Overlaps.ShardedAnswers | src/bake-shards.js:137-205 | Where shards were killed at any point whatever, the assembled archive still answers every id as the unsharded bake does |
| Overlaps.RunsCover | src/bake-shards.js:160-205 | Runs that are right and leave nothing unreached, though they overlap, cover everything once written one after another |
| Overlaps.WholeCovers | src/bake.js:579-772 | An archive that is tile for tile the bake also covers it, so the theorem above is the weaker of the two |
| SharedBake.BakeShard | src/distributed.js:1159-1248 | A shard baked on its own, however often it was killed, comes to a fragment that covers its part; with no torn checkpoint, to its part's bake |
| Plan.PlanShards | src/bake-shards.js:51-101 | The shards abut, their pieces put together are exactly what is picked of the stream, no piece of more than one tile costs more than tilesPerShard, and none could have taken the tile after it |
| Plan.EachTileInOneShard | src/bake-shards.js:59-100 | Every picked tile falls in exactly one shard |
| Plan.CuttingConserves | src/bake-shards.js:59-100 | The shards' tiles and work add up to what was picked |
| Plan.FewShards | src/bake-shards.js:59-100 | Shards number at most twice the total work over a share, and one |
| Plan.PlanIsUnique | src/bake-shards.js:59-100 | A stream and a share size have one plan |
| Assemble.AssembleFragments | src/bake-shards.js:125-228 | Made if and only if fragments come in order, agree on their kind, hold nothing outside their shard and hold something, and refused for the first of these that fails; of the one kind all fragments with tiles are of, counting the fragments used; wholesome ones give exactly their tiles one after another, clustered without a sort, and as many are counted as there are; deduplicated, no tile is stored twice |
| Assemble.ReadingIsRight | src/bake-shards.js:160-190 | Keeping the last tile read, by its offset, reads every entry as it is if and only if neighbours that start at one place take the same length |
| Bake.BakeStack | src/bake.js:579-772 | From any sane working directory, whatever stops, fails or kills the run: a run that is stopped has written down the last id it dealt with, which ends every batch before the one it was stopped in, and that batch too if the stop came after it; one that is killed reads back every batch but the last few ids, fewer than a checkpoint is due after, and every batch the clock said to write down after; one killed while writing a checkpoint reads back as much as the one before, or nothing; none reads back less than it began from; and a run that finishes went through every batch, answers every id as wanted, counts each tile once, leaves no working files and, if begun afresh, has stored each tile once where it deduplicates and under an entry of its own where it does not |
| Bake.BakeUntilDone | src/bake.js:635-662 | However often a bake is stopped, failed or killed, with whatever batch sizes, once it ends it has written what an undisturbed one does, tile for tile if no checkpoint was torn; it ends with the first run nothing happens to, and, where each run gets a batch written down before anything happens to it, within as many runs as there are ids and one; no run begins before the last one did unless that tore a checkpoint |
| Bake.RestIsLeft | src/bake.js:635-662 | A run picked up from the last of so many ids has exactly the others left to deal with |
| Checkpoint.WorkDir.WriteCheckpoint | src/bake.js:246-269 | The three writes in order, record by record, and exactly what is on disk when the process dies between any two |
| Checkpoint.OthersAreNothing | src/bake.js:202-231 | A directory of another revision, or whose records or bytes are not what its state file says, is no checkpoint, whatever else it holds |
| Checkpoint.IncrementalIsFull | src/bake.js:157-189 | Appending from the last persisted record leaves the file a full rewrite would, if and only if everything before it was already the same |
| Checkpoint.TornIsSane | src/bake.js:202-231 | After dying between any two writes, what reads back is nothing, or covers the bake up to the id it names |
| Writer.PMTilesWriter.WriteTile | src/pmtiles-write.js:383-428 | One tile more: a run lengthened, a stored tile pointed at, or new bytes and an entry |
| Writer.PMTilesWriter.WriteTiles | src/pmtiles-write.js:444-454 | A run of tiles at once, or a refusal of an empty one |
| Writer.RunAppends | src/pmtiles-write.js:444-454 | Writing a run at once holds what writing its tiles one by one would |
| Writer.PMTilesWriter.Finalize | src/pmtiles-write.js:463-524 | The entries in id order over exactly the bytes written; nothing where there is no tile; nothing moves where they were in order |
| Archive.WritingAppends | src/pmtiles-write.js:383-428 | Adding a tile appends exactly that tile to what the archive holds, if and only if it is not confused with a run of another length |
| Archive.AnEmptyTileIsConfused | src/pmtiles-write.js:383-428 | Three tiles for which it is |
| Archive.FullTilesAreAllWritten | src/pmtiles-write.js:383-428 | Where no tile is empty, an archive holds exactly the tiles it was offered, one after another |
| Union.UnionOfTileIds | src/pmtiles-scan.js:244-310 | However sources chunk their ids, exactly the ids any holds, strictly ascending, each with how many sources hold it |
| Scan.ScanTileIds | src/pmtiles-scan.js:138-226 | Of any directory, overlapping runs included: chunks of the ids its runs list, in the order of the slots, leaves outside the run never read and runs entered part way; refused if and only if a leaf that would have to be read points at another |
| Scan.SkippedIsTooEarly | src/pmtiles-scan.js:138-226 | A slot is passed over exactly where every id it has, or of a leaf every id before what comes next, is too early |
| Scan.ListingIsExact | src/pmtiles-scan.js:138-226 | Of a directory in order, what is listed is exactly the stored ids in the run, ascending |
| Scan.ListedInOrderIff | src/pmtiles-scan.js:198-226 | What a directory lists ascends if and only if each of its runs ends before the next begins |
| Selection.SelectedIsTheSpan | src/bake-selection.js:161-228 | What is selected is the id span of the zooms and run, cut to the box where there is one |
| Selection.BoxIsOverlap | src/bake-selection.js:182-228 | A box selects exactly the tiles that share ground with it, between its meridians and its parallels |
| Selection.ClampedIsNearest | src/bake-selection.js:182-228 | A latitude off the map is taken for the nearest on it |
| Selection.ShardSelects | src/distributed.js:1188-1209 | A shard's selection selects what the bake's does within the shard's run |
| Streams.ScanSources | src/bake.js:614-634 | The stream of several archives and tables is exactly the ids some source holds in the run, each with how many do; none if and only if a directory that would have to be read is nested too deep |
| Streams.BakesWhatIsSelected | src/bake.js:689-764 | A bake over that stream wants exactly what some source holds, the selection asks for and the merge answers |
| Streams.ResumingReadsTheRest | src/bake.js:635-662 | Reading the sources from past the last id gives exactly the rest of the stream and of the bake |
| Streams.SelectedShardIsAShard | src/distributed.js:1188-1209 | A shard scanned under its own narrowed selection is that shard of the whole bake |
| Streams.PlannedShardsAreParts | src/distributed.js:1375-1404 | So every shard of a plan, known only by its two ends, is baked as its part of the whole |
| Mbtiles.MbtilesArchive.TileIds | src/mbtiles.js:252-340 | The chunks put together are exactly the ids in the run of the tiles the table has rows of, rows counted from the south and tiles from the north, strictly ascending, none lost or repeated, no chunk empty |
| TileIds.DescendantsAreOneRun | src/mbtiles.js:290-335 | The Hilbert positions of a cell's descendants are one contiguous run at the cell's own position, which makes a sort by blocks a sort by ids |
| TileIds.TileIdIsInjective | src/mbtiles.js:281-288 | No two tiles of any zooms share an id |
| TileIds.IdsAreTiles | src/bake-selection.js:210-228 | The tile read out of an id has that id |
| TileIds.TilesAreIds | src/bake-selection.js:210-228 | The id of a tile reads back as that tile |
| Curve.CurveEnds | src/mbtiles.js:281-288 | Each zoom's ids begin at its north-western tile and end at its north-eastern |
| Curve.CurveNeverJumps | src/mbtiles.js:281-288 | Tiles with successive ids of a zoom are neighbours |
| Curve.OneHilbertCurve | src/mbtiles.js:281-288 | Begun and ended there, without jumps or repeats, each tile's descendants together: there is one such curve at every zoom, and the ids follow it |
| Curve.IdsFollowTheCurve | src/mbtiles.js:281-288 | Tiles whose ids are next to each other in a zoom are side by side |
| Classify.ClassifyTile | src/cutline.js:401-434 | Inside or outside is true of every interior point of the grown box, against all edges; partial is answered if and only if the boxes meet and an edge reaches in |
| Ground.TileCovers | src/cutline.js:243-251 | A place is in a tile's box exactly where its shares of the world, as many times as there are tiles, round down to the tile's column and row, the northernmost row being the first |
| Ground.EachPlaceIsOnOneTile | src/cutline.js:243-251 | The boxes of a zoom divide the world between them |
| Ground.GrownPixels | src/cutline.js:265-277 | A pixel of a tile keeps its place when the tile gets a border: only its number changes, by the border |
| Ground.MaskTwice | src/cutline.js:455-496 | A mask with a border, cropped, agrees with the one without wherever both are right |
| Ground.OneBucketIsAlone | src/cutline.js:178-196 | With a single bucket both always are: no edge is left out under any tile |
| Ground.CentresAreEven | src/cutline.js:461-468 | Pixels are spaced evenly across the box, as far from one side as from the other |
| Ground.BoundsEnclose | src/cutline.js:507-527 | A rectangle from bounds holds exactly the places between its meridians and its parallels |
| Geometry.CrossesWhereWestOf | src/cutline.js:225-234 | The ray meets an edge exactly where the edge passes its height and the point lies on the edge's western side |
| Cutline.Prepare | src/cutline.js:126-196 | The edges of all the rings, in an index every edge is listed in wherever its box reaches, over exactly the box they lie in, on the grid the count asks for, a single bucket exactly below 36 edges and never more than 256 a side |
| Cutline.FromBounds | src/cutline.js:507-527 | A rectangle's four sides in a single bucket, refused exactly where the bounds are not a box |
| Raster.RasterizeTile | src/cutline.js:455-496 | Each pixel off the crossings is the even-odd rule over the edges listed under the tile, which is that over all edges of its row where there is a single bucket |
| Rectangles.RectangleIsItsInside | src/cutline.js:225-234 | The even-odd rule over a rectangle's sides is being in the rectangle |
| Rectangles.RectangleIsFilled | src/cutline.js:455-496 | A rectangle's mask is set exactly at the centres inside it |
| Rectangles.PixelIsRight | src/cutline.js:459-476 | With any index, a pixel is right if and only if the crossings missed to its east do not change the parity that pairing nearby ones decides |
| Rectangles.ManyEdgesCanMislead | src/cutline.js:459-476 | A family of shapes whose pixels inside are left unset |
| Rectangles.NineCopiesMislead | src/cutline.js:126-196 | Nine copies of a ring are of that family: preparing and rasterizing them leaves the pixels they cover unset |
| Rectangles.AloneIsRight | src/cutline.js:459-476 | Where no edge reaches a tile's rows but those listed under it, every pixel off the edges is right |
| DistanceTransform.LowerEnvelope | src/cutline.js:289-316 | At every position the least of squared distance plus value over all seeds, by loops that end |
| FeatherMask.Feather | src/cutline.js:333-364 | Every weight is the one the two passes and the root are for: that of the exact squared distance to the nearest hole |
| FeatherMask.WeightMeaning | src/cutline.js:333-364 | A weight is nothing exactly at the holes, everything, for feathers of up to a million pixels, exactly where no hole is nearer than the feather, and in between the true distance's share of it |
| FeatherMask.FeatherIsLocal | src/cutline.js:319-382 | Two tiles whose padded masks agree as far as the feather reaches give shared ground the same weight |
| FeatherMask.CropMask | src/cutline.js:373-382 | The tile out of its border |
| Blur.ResampleFromParent | src/elevation.js:417-465 | A tile with a border is a window of the one plane the whole parent upscales to |
| Blur.NearestIsTheParent | src/elevation.js:329-465 | Upscaled to the nearest, every pixel holds what the pixel of the parent it lies in does |
| Blur.FlatStaysFlat | src/elevation.js:417-465 | Flat ground stays as high as it is, with any kernel, holes in it or not, and however much it is smoothed |
| Blur.BlurHeights | src/elevation.js:638-674 | Well within its window, a blurred window is a window of the blurred plane |
| Blur.UpscaleAndBlur | src/elevation.js:781-802 | Where the blur reaches no further than a quarter of the tile, the tile is a window of the whole parent upscaled and blurred, so neighbours agree on shared ground, holes included |
| Blur.HolesStay | src/elevation.js:638-674 | A blurred pixel is empty if and only if everything within reach is |
| Terrain.PixelsSurvive | src/elevation.js:43-139 | What a pixel decodes to encodes to that pixel |
| Terrain.NamedEncodings | src/elevation.js:43-78 | Mapbox goes up from its base by its interval, pixel after pixel, and Terrarium by a 256th of a metre with the sea half way |
| Terrain.WrittenIsNearest | src/elevation.js:115-139 | A height is written as the nearest height three bytes can hold, beyond the range as at its end |
| Terrain.HeightsSurvive | src/elevation.js:43-139 | In range, it reads back within half a step |
| Terrain.DecodeHeights | src/elevation.js:88-103 | Every pixel's height, whatever channels follow the first three |
| Terrain.EncodeHeights | src/elevation.js:115-139 | Every height's pixel, and black where there is none |
| HeightsCache.HitIsLastSet | src/heights-cache.js:62-110 | Over every run of calls the budget is kept, keys are kept once, and what is found is the last value set for its key that fits |
| HeightsCache.NewKeySurvives | src/heights-cache.js:87-110 | A new key that fits survives its own insertion |
| HeightsCache.OldKeySurvivesIff | src/heights-cache.js:87-110 | A key set again survives if and only if it fits together with everything after its old place |
| HeightsCache.OldestCanEvictItself | src/heights-cache.js:87-110 | Two keys for which it does not |
| HeightsCache.HeightsCache.Get | src/heights-cache.js:62-79 | A fresh copy of what is held, which becomes the last to go, and the counters |
| HeightsCache.HeightsCache.Set | src/heights-cache.js:87-110 | A copy is held, and the shortest prefix of the order that restores the budget goes |
| HeightsCache.HeightsCache.Clear | src/heights-cache.js:138-141 | Nothing is held and nothing counted as held |
| Contour.ZigzagReadsBack | src/contour-mvt.js:56-58 | A step reads back, by a reader of 32 bits or of as many as are written, if and only if it fits that reader |
| Contour.GeometryReadsBack | src/contour-mvt.js:47-93 | A line's commands read back as its points if and only if each step and the count fit the reader |
| Contour.WriteGeometry | src/contour-mvt.js:71-93 | The loop writes those commands for the rounded points, and nothing for fewer than two |
| ContourTile.WriteLayer | src/contour-mvt.js:138-173 | The loop's index tables and tags are the layer of the features |
| ContourTile.EncodeContourTile | src/contour-mvt.js:185-216 | One feature for each line of two points or more, by ascending height, in one layer; or nothing |
| ContourTile.TileReadsBack | src/contour-mvt.js:138-216 | Reading the layer returns every line with its rounded points, `ele` and `level`, if and only if every line fits the reader |
| ContourTile.ReadInOrder | src/contour-mvt.js:190-206 | What is read comes in ascending order of height |
| ContourTile.EveryLineIsRead | src/contour-mvt.js:190-206 | At each height exactly its lines of two points or more are read, in order |
| ContourTile.OneOrder | src/contour-mvt.js:190-192 | The order is settled by the heights alone |
| ContourTile.TablesHoldOnce | src/contour-mvt.js:138-173 | No key or value is in its table twice |
| Feed.TextSurvives | src/feed.js:30-36 | For every text, decoding undoes escaping, though both are one global replacement after another |
| Feed.SectionIsItsText | src/feed.js:364-374 | What a CDATA section holds is its text |
| Feed.ApostropheIsRead | src/feed.js:364-374 | An apostrophe somebody escaped is read as one |
| Feed.Characters | src/feed.js:351-357 | Names are matched whatever the case of their letters, end before anything but a letter, digit or underscore, and what is read is trimmed of blanks and line ends |
| Feed.TrimmingEscaped | src/feed.js:351-357 | Trimming commutes with escaping |
| Feed.ElementSurvives | src/feed.js:351-357 | An element is read back, trimmed, wherever it stands, if no start tag taken for its name comes before |
| Feed.FieldSurvives | src/feed.js:351-357 | So a field among others is read back whatever they hold, if no element before it is taken for it |
| Feed.NoField | src/feed.js:351-357 | A field nothing is taken for is absent |
| Item.ItemReadsBack | src/feed.js:93-180 | Of an item as it is written, line by line, whatever its fields hold: title, link, guid, date, description, infohash, magnet, and the mutable magnet, checksum and time if there are any, are read back, trimmed |
| Item.MapReadsBack | src/feed.js:224-258 | So are format, zooms and bounds, and tile count, attribution and encoding if there are any; where nothing was said of the map no format is read |

## Left out

- Service.LoansAreBounded: for coordinators nobody cancels, retries, gives back to, discards from or restarts; each of those can hand a shard out again, and how much a stop costs is Leasing.EveryStopCostsATry.
- Distributed.DistributedBakes.CompleteShard: one step; in the program the check of an upload and the move of its file are awaited between looking the shard up and marking it done, and two such requests may overlap.
- Terrain.PixelsSurvive: the named encodings, Mapbox with any positive interval and Terrarium; four arbitrary factors need not have place value, so bytes need not survive them.
- FeatherMask.WeightMeaning: a feather of more than a million pixels, whose square exceeds the constant that stands for no hole, is excluded from the second clause.
- Bake.BakeStack: merges that answer no empty tile, see above; `skipped`, which is not what an undisturbed run counts when a bake is resumed under a box, is not kept track of.
- Raster.RasterizeTile: with several buckets only what the nearby edges decide, since more does not hold; Rectangles.PixelIsRight has the condition.
- Item.ItemReadsBack: dates, numbers, magnets and the summary of a map are their texts; reading the enclosure's attributes and the categories, and splitting a feed into items, are not modelled.
- Streams.ScanSources: of directories in order; what others list is Scan.ScanTileIds, and that it is then out of order, Scan.ListedInOrderIff.
- How many pieces of background work a job has at once: the model lets a job's background work fail at any time it is not cancelled, whether or not there is any, which the program's runs are among.
- Packing of records, directories, headers and contour layers into bytes; varints and protobuf framing. Entries, and the integers and tables of a layer, are sequences.
- Laying a finished archive's entries out in directories: any layout that keeps them in order.
- The disk: a write fails only where the process dies with it; a write of one record or one file is atomic, and two writes of one job's record do not overlap; what is there goes only as the modelled steps remove it. What a discarded job's unfinished assembly still publishes is not counted as put together.
- Floating point: rounding, single precision and overflow. Arithmetic is exact, and kernel weights are any positive reals.
- The Hilbert id library is not part of this repository; ids are as section 4.1 of the PMTiles Version 3 Specification has them.
- SQLite, decompression and range reads: a table is its rows, and a directory its entries.
- HTTP routes, authentication, workers' own records, rates and limits, `updateJob`, names, metadata, publishing and retention.
- Masks by height or colour, painting layers over one another, resizing and putting children together in elevation merging.
- Sharing of work in flight in the heights cache.
