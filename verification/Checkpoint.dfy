/**
 A bake's working directory: the buffered tiles, the entries written down so
 far, and the scalars that say how far it had got.
 */
module Checkpoint {
  import opened Archive
  import opened Coverage
  import opened Writer

  /** The state file. */
  datatype Progress = Progress(
    revision: nat, lastTileId: int, written: nat, skipped: nat,
    dataBytes: nat, addressed: nat, clustered: bool, entryCount: nat)

  /** A checkpoint worth resuming from. */
  datatype Found = Found(progress: Progress, entries: seq<Entry>)

  /** What a reader makes of the three files. A state file that cannot be parsed is no state file. */
  function Read(revision: nat, state: Option<Progress>, records: Option<seq<Entry>>,
                tiles: Option<Bytes>): Option<Found> {
    if state.None? || state.value.revision != revision then None
    else if records.None? || tiles.None? then None
    else if |tiles.value| < state.value.dataBytes then None
    else if |records.value| != state.value.entryCount then None
    else Some(Found(state.value, records.value))
  }

  /** Whatever can be resumed from covers the bake up to the tile it names, and counts what it had written. */
  ghost predicate Sane(job: Job, revision: nat, state: Option<Progress>, records: Option<seq<Entry>>,
                       tiles: Option<Bytes>) {
    var found := Read(revision, state, records, tiles);
    found.Some? ==>
      && Covers(job, found.value.entries, tiles.value, found.value.progress.dataBytes, found.value.progress.lastTileId)
      && found.value.progress.written == |BakedTo(job, found.value.progress.lastTileId)|
  }

  /** And it holds exactly the tiles up to there, in order, as its counters say. */
  ghost predicate Exact(job: Job, revision: nat, state: Option<Progress>, records: Option<seq<Entry>>,
                        tiles: Option<Bytes>) {
    var found := Read(revision, state, records, tiles);
    found.Some? ==>
      && AllWithin(found.value.entries, |tiles.value|)
      && TilesOf(found.value.entries, tiles.value) == BakedTo(job, found.value.progress.lastTileId)
      && found.value.progress.addressed == found.value.progress.written
      && found.value.progress.clustered
      && -1 <= found.value.progress.lastTileId && EndsBy(found.value.entries, found.value.progress.lastTileId)
  }

  /**
   Whatever else the files hold, a directory left by another job, or whose files do not go together, does for a
   job to start afresh in.
   */
  lemma OthersAreNothing(job: Job, revision: nat, state: Option<Progress>, records: Option<seq<Entry>>,
                         tiles: Option<Bytes>)
    requires state.Some? && records.Some? && tiles.Some? ==>
               state.value.revision != revision || state.value.entryCount != |records.value| ||
               |tiles.value| < state.value.dataBytes
    ensures Read(revision, state, records, tiles).None?
    ensures Sane(job, revision, state, records, tiles) && Exact(job, revision, state, records, tiles)
  {
  }

  /** The last run does not reach past an id. */
  ghost predicate EndsBy(entries: seq<Entry>, last: int) {
    entries != [] ==> entries[|entries| - 1].End() - 1 <= last
  }

  /** Where a checkpoint starts writing: one back, because the last record on disk may have grown. */
  function TailFrom(persisted: nat, count: nat): (from: nat)
    ensures from <= persisted && from <= count
  {
    var n := if persisted < count then persisted else count;
    if n == 0 then 0 else n - 1
  }

  /** The record file after `count` records have been written over it from a position on. */
  function Rewritten(was: seq<Entry>, from: nat, entries: seq<Entry>, count: nat): seq<Entry>
    requires from <= |was| && from + count <= |entries|
  {
    was[..from] + entries[from..from + count] + if from + count <= |was| then was[from + count..] else []
  }

  /** Only the last entry has changed since, and only by growing a longer run. */
  ghost predicate OnlyLastGrew(was: seq<Entry>, entries: seq<Entry>) {
    && |was| <= |entries|
    && (was != [] ==>
          var n := |was| - 1;
          && was[..n] == entries[..n]
          && was[n].runLength <= entries[n].runLength
          && entries[n] == was[n].(runLength := entries[n].runLength))
  }

  /**
   Appending what is new leaves the file a full rewrite would, exactly where everything before the tail
   was already right.
   */
  lemma IncrementalIsFull(was: seq<Entry>, entries: seq<Entry>)
    requires |was| <= |entries|
    ensures var from := TailFrom(|was|, |entries|);
            Rewritten(was, from, entries, |entries| - from) == entries <==> was[..from] == entries[..from]
  {
    var from := TailFrom(|was|, |entries|);
    var after := Rewritten(was, from, entries, |entries| - from);
    assert after == was[..from] + entries[from..];
    assert after[..from] == was[..from];
    assert entries == entries[..from] + entries[from..];
  }

  /**
   A record file torn between two writes that still has its old length is the old one, but for a last
   run that may have grown.
   */
  lemma TornIsOldOrLonger(was: seq<Entry>, entries: seq<Entry>, count: nat)
    requires OnlyLastGrew(was, entries) && TailFrom(|was|, |entries|) + count <= |entries|
    ensures var torn := Rewritten(was, TailFrom(|was|, |entries|), entries, count);
            |torn| == |was| ==> torn == was || (was != [] && torn == Longer(was, entries[|was| - 1].runLength))
  {
    var from := TailFrom(|was|, |entries|);
    var torn := Rewritten(was, from, entries, count);
    if |torn| == |was| {
      if count == 0 {
        assert torn == was;
      } else {
        assert was != [] && from == |was| - 1 && count == 1;
        assert entries[from..from + 1] == [entries[from]];
        assert torn == was[..from] + [entries[from]];
      }
    }
  }

  lemma RightResized(job: Job, e: Entry, e': Entry, bytes: Bytes, size: nat, size': nat)
    requires Right(job, e', bytes, size') && e.Within(size) && size <= size'
    requires e'.offset == e.offset && e'.length == e.length
    ensures Right(job, e', bytes, size)
  {
  }

  /**
   A checkpoint that stopped between two of its writes can still be resumed
   from, or is not taken for one.
   */
  lemma TornIsSane(job: Job, revision: nat, state: Option<Progress>, was: seq<Entry>, bytes: Bytes,
                   entries: seq<Entry>, size: nat, last: int, count: nat)
    requires state.Some? ==> Read(revision, state, Some(was), Some(bytes)).Some? && state.value.dataBytes <= size
    requires Sane(job, revision, state, Some(was), Some(bytes))
    requires Covers(job, entries, bytes, size, last)
    requires OnlyLastGrew(was, entries) && TailFrom(|was|, |entries|) + count <= |entries|
    ensures Sane(job, revision, state, Some(Rewritten(was, TailFrom(|was|, |entries|), entries, count)), Some(bytes))
  {
    var torn := Rewritten(was, TailFrom(|was|, |entries|), entries, count);
    if Read(revision, state, Some(torn), Some(bytes)).Some? {
      TornIsOldOrLonger(was, entries, count);
      if torn != was {
        var n := |was| - 1;
        assert Right(job, entries[n], bytes, size);
        assert Right(job, was[n], bytes, state.value.dataBytes);
        RightResized(job, was[n], entries[n], bytes, state.value.dataBytes, size);
        CoverLengthened(job, was, bytes, state.value.dataBytes, state.value.lastTileId, entries[n].runLength);
      }
    }
  }

  class WorkDir {
    var tiles: File?
    var records: Option<seq<Entry>>
    var state: Option<Progress>

    constructor ()
      ensures tiles == null && records.None? && state.None?
    {
      tiles, records, state := null, None, None;
    }

    function Tiles(): Option<Bytes>
      reads this, tiles
    {
      if tiles == null then None else Some(tiles.bytes)
    }

    /** A checkpoint, if there is one of this revision worth resuming from. */
    function ReadCheckpoint(revision: nat): Option<Found>
      reads this, tiles
    {
      Read(revision, state, records, Tiles())
    }

    /** The last id a run picked up from here takes to be dealt with. */
    function ResumesAt(revision: nat): int
      reads this, tiles
    {
      var found := ReadCheckpoint(revision);
      if found.Some? then found.value.progress.lastTileId else -1
    }

    /** Removes the files, one at a time and in any order. */
    method ClearCheckpoint()
      modifies this
      ensures tiles == null && records.None? && state.None?
    {
      state := None;
      records := None;
      tiles := null;
    }

    /** Writes the records from a position on over the file, one by one. */
    method WriteTail(entries: seq<Entry>, from: nat, dies: Option<nat>, ghost was: seq<Entry>) returns (died: bool)
      requires records == Some(was) && from <= |was| && from <= |entries|
      modifies this`records
      ensures died <==> dies.Some? && 0 < dies.value <= |entries| - from
      ensures exists count: nat :: from + count <= |entries| && (!died ==> from + count == |entries|) &&
                                   records == Some(Rewritten(was, from, entries, count))
    {
      assert was == Rewritten(was, from, entries, 0);
      for at := from to |entries|
        invariant records == Some(Rewritten(was, from, entries, at - from))
        invariant dies.Some? ==> dies.value <= 0 || at - from < dies.value
      {
        if dies == Some(at - from + 1) {
          return true;
        }
        var file := records.value;
        assert (if at < |file| then file[at := entries[at]] else file + [entries[at]]) ==
               Rewritten(was, from, entries, at + 1 - from);
        records := Some(if at < |file| then file[at := entries[at]] else file + [entries[at]]);
      }
      return false;
    }

    /**
     Writes a checkpoint, appending what is new rather than rewriting it all:
     first the records, one by one, then the length of their file, then the
     state. The process may die after any of these; `dies` says after how many.
     */
    method WriteCheckpoint(progress: Progress, entries: seq<Entry>, persisted: nat, dies: Option<nat>)
      returns (done: bool, now: nat)
      requires persisted <= |entries| && (persisted > 0 ==> records.Some? && |records.value| == persisted)
      modifies this`records, this`state
      ensures var was := if persisted > 0 then old(records).value else [];
              var from := TailFrom(persisted, |entries|);
              if done then
                && now == |entries|
                && records == Some(Rewritten(was, from, entries, |entries| - from))
                && state == Some(progress.(entryCount := |entries|))
              else
                && (state == old(state) || state.None?)
                && (records == old(records) || exists count: nat ::
                    from + count <= |entries| &&
                    records == Some(Rewritten(was, from, entries, count)))
      ensures dies.None? ==> done
      ensures dies.Some? ==>
                var last := |entries| - TailFrom(persisted, |entries|) + 2;
                && (dies.value < last ==> !done && state == old(state))
                && (dies.value == last ==> !done && state.None?)
                && (dies.value > last ==> done)
    {
      done, now := false, persisted;
      var from := TailFrom(persisted, |entries|);
      if dies == Some(0) {
        return;
      }
      ghost var was := if persisted > 0 then records.value else [];
      if persisted == 0 {
        records := Some([]);
      }
      var died := WriteTail(entries, from, dies, was);
      if died {
        return;
      }
      assert records.value == Rewritten(was, from, entries, |entries| - from);
      assert records.value[..|entries|] == records.value;
      records := Some(records.value[..|entries|]);
      if dies == Some(|entries| - from + 1) {
        return;
      }
      // A state file half written cannot be parsed.
      state := None;
      if dies == Some(|entries| - from + 2) {
        return;
      }
      state := Some(progress.(entryCount := |entries|));
      return true, |entries|;
    }
  }
}
