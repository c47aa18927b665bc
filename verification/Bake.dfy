/**
 Running a bake: tiles are merged in batches and written in order, progress is
 written down as it goes, and a run that stops is picked up by the next.
 */
module Bake {
  import opened Archive
  import opened TileIds
  import opened Coverage
  import opened Writer
  import opened Checkpoint
  import opened Sorting
  import opened Storing

  /** The files on disk are in step with a draft: only the last record may be behind, and any state read still holds. */
  ghost predicate InStep(revision: nat, state: Option<Progress>, records: Option<seq<Entry>>, persisted: nat,
                         draft: Draft) {
    && (persisted > 0 ==> records.Some? && |records.value| == persisted)
    && OnlyLastGrew(if persisted > 0 then records.value else [], draft.entries)
    && (state.Some? ==>
          && Read(revision, state, records, Some(draft.bytes)).Some?
          && state.value.dataBytes <= draft.dataBytes && |records.value| == persisted)
  }

  lemma WritingKeepsBelow(a: Draft, id: nat, data: Bytes)
    requires a.Sound()
    ensures var w := a.Written(id, data);
            && a.dataBytes <= w.dataBytes <= |w.bytes| && a.dataBytes <= |a.bytes|
            && w.bytes[..a.dataBytes] == a.bytes[..a.dataBytes]
  {
  }

  lemma WritingGrowsOnlyLast(was: seq<Entry>, a: Draft, id: nat, data: Bytes)
    requires a.dataBytes <= |a.bytes| && OnlyLastGrew(was, a.entries)
    ensures OnlyLastGrew(was, a.Written(id, data).entries)
  {
    var n := |a.entries|;
    var w := a.Written(id, data);
    if a.CarriesOn(id, data) {
      assert w.entries[..n - 1] == a.entries[..n - 1];
      if was != [] && |was| < n {
        assert w.entries[..|was|] == a.entries[..|was|];
        assert w.entries[..|was| - 1] == w.entries[..|was|][..|was| - 1];
        assert a.entries[..|was| - 1] == a.entries[..|was|][..|was| - 1];
      }
    } else {
      assert w.entries[..n] == a.entries;
      if was != [] {
        assert w.entries[..|was| - 1] == w.entries[..n][..|was| - 1];
      }
    }
  }

  /** What is on disk still reads the same after bytes are written above it. */
  lemma DiskKeeps(job: Job, revision: nat, state: Option<Progress>, records: Option<seq<Entry>>, bytes: Bytes,
                  bytes': Bytes, size: nat)
    requires size <= |bytes| && size <= |bytes'| && bytes[..size] == bytes'[..size]
    requires state.Some? ==> Read(revision, state, records, Some(bytes)).Some? && state.value.dataBytes <= size
    requires Sane(job, revision, state, records, Some(bytes))
    ensures state.Some? ==> Read(revision, state, records, Some(bytes')).Some?
    ensures Sane(job, revision, state, records, Some(bytes'))
    ensures Exact(job, revision, state, records, Some(bytes)) ==> Exact(job, revision, state, records, Some(bytes'))
  {
    if state.Some? {
      var n := state.value.dataBytes;
      assert bytes[..n] == bytes[..size][..n] && bytes'[..n] == bytes'[..size][..n];
      CoverKeeps(job, records.value, bytes, bytes', n, n, state.value.lastTileId);
      CoverIsWithin(job, records.value, bytes, n, state.value.lastTileId);
      TilesKeep(records.value, bytes, bytes', n);
    }
  }

  /** A checkpoint that went through is what a full rewrite would be, and covers what the draft does. */
  lemma WrittenDown(job: Job, revision: nat, progress: Progress, was: seq<Entry>, draft: Draft,
                    state: Option<Progress>, records: Option<seq<Entry>>)
    requires draft.Sound() && OnlyLastGrew(was, draft.entries)
    requires progress.revision == revision && progress.dataBytes == draft.dataBytes
    requires Covers(job, draft.entries, draft.bytes, draft.dataBytes, progress.lastTileId)
    requires progress.written == |BakedTo(job, progress.lastTileId)|
    requires state == Some(progress.(entryCount := |draft.entries|))
    requires var from := TailFrom(|was|, |draft.entries|);
             records == Some(Rewritten(was, from, draft.entries, |draft.entries| - from))
    ensures records == Some(draft.entries)
    ensures InStep(revision, state, records, |draft.entries|, draft)
    ensures Sane(job, revision, state, records, Some(draft.bytes))
    ensures draft.Tiles() == BakedTo(job, progress.lastTileId) && progress.addressed == progress.written &&
            progress.clustered
            && -1 <= progress.lastTileId && EndsBy(draft.entries, progress.lastTileId)
            ==> Exact(job, revision, state, records, Some(draft.bytes))
  {
    IncrementalIsFull(was, draft.entries);
  }

  /** One that did not can still be resumed from, or is not taken for a checkpoint. */
  lemma StoppedWriting(job: Job, revision: nat, state: Option<Progress>, records: Option<seq<Entry>>, persisted: nat,
                       draft: Draft,
                       last: int, written: nat, state': Option<Progress>, records': Option<seq<Entry>>)
    requires Current(job, revision, state, records, persisted, draft, last, written)
    requires state' == state || state'.None?
    requires var was := if persisted > 0 then records.value else [];
             var from := TailFrom(persisted, |draft.entries|);
             records' == records || exists count: nat ::
               from + count <= |draft.entries| && records' == Some(Rewritten(was, from, draft.entries, count))
    ensures Sane(job, revision, state', records', Some(draft.bytes))
  {
    if state' == state && records' != records && state.Some? {
      var was := if persisted > 0 then records.value else [];
      var from := TailFrom(persisted, |draft.entries|);
      var count: nat :| from + count <= |draft.entries| && records' == Some(Rewritten(was, from, draft.entries, count));
      assert records == Some(was);
      TornIsSane(job, revision, state, was, draft.bytes, draft.entries, draft.dataBytes, last, count);
    }
  }

  lemma WrittenEndsAt(a: Draft, id: nat, data: Bytes)
    requires a.dataBytes <= |a.bytes|
    ensures EndsBy(a.Written(id, data).entries, id)
    ensures a.Written(id, data).clustered == (a.clustered && a.lastId < id) && a.Written(id, data).lastId == id
    ensures a.Written(id, data).addressed == a.addressed + 1
  {
  }

  lemma FirstIsLeast(ids: seq<nat>, id: nat)
    requires Climbs(ids) && id in ids
    ensures ids[0] <= id
  {
  }

  /** A batch is every id up to `upTo` past the last that is asked for, in order. */
  ghost predicate PendingAfter(job: Job, last: int, batch: seq<nat>, upTo: int) {
    && last <= upTo && Climbs(batch)
    && (forall k :: 0 <= k < |batch| ==> batch[k] in job.ids && job.Asked(batch[k]) && last < batch[k] <= upTo)
    && (forall u: nat :: job.Wanted(u) && last < u <= upTo ==> u in batch)
  }

  /** Nothing is waited for before the first of a batch. */
  lemma FirstIsNext(job: Job, last: int, batch: seq<nat>, upTo: int, data: Option<Bytes>)
    requires job.NoEmptyTiles() && PendingAfter(job, last, batch, upTo) && batch != []
    requires data == job.merge(batch[0])
    ensures last < batch[0] && batch[0] in job.ids
    ensures data.Some? ==> Next(job, last, batch[0], data.value)
    ensures data.None? ==> forall u: nat :: last < u <= batch[0] ==> !job.Wanted(u)
  {
    forall u: nat | last < u < batch[0]
      ensures !job.Wanted(u)
    {
      if job.Wanted(u) {
        FirstIsLeast(batch, u);
      }
    }
  }

  lemma RestIsPending(job: Job, last: int, batch: seq<nat>, upTo: int)
    requires PendingAfter(job, last, batch, upTo) && batch != []
    ensures PendingAfter(job, batch[0], batch[1..], upTo)
  {
    hide Job.Wanted;
    forall u: nat | job.Wanted(u) && batch[0] < u <= upTo
      ensures u in batch[1..]
    {
      var k :| 0 <= k < |batch| && batch[k] == u;
      assert batch[1..][k - 1] == u;
    }
  }

  lemma CoverIsWithin(job: Job, entries: seq<Entry>, bytes: Bytes, size: nat, last: int)
    requires Covers(job, entries, bytes, size, last)
    ensures AllWithin(entries, size)
  {
    forall i | 0 <= i < |entries|
      ensures entries[i].Within(size)
    {
      assert Right(job, entries[i], bytes, size);
    }
  }

  /** A draft covers the bake up to `last`, and so does whatever could be resumed from. */
  ghost predicate Current(job: Job, revision: nat, state: Option<Progress>, records: Option<seq<Entry>>, persisted: nat,
                          draft: Draft, last: int, written: nat)
  {
    && draft.Sound() && draft.Apart()
    && Covers(job, draft.entries, draft.bytes, draft.dataBytes, last)
    && written == |BakedTo(job, last)|
    && InStep(revision, state, records, persisted, draft)
    && Sane(job, revision, state, records, Some(draft.bytes))
  }

  /** It holds exactly the tiles up to there, in order, and nothing on disk was ever torn. */
  ghost predicate Unbroken(job: Job, revision: nat, state: Option<Progress>, records: Option<seq<Entry>>,
                           draft: Draft, last: int, written: nat)
    requires draft.Sound()
  {
    && draft.Tiles() == BakedTo(job, last)
    && draft.addressed == written && draft.clustered && draft.lastId <= last
    && -1 <= last && EndsBy(draft.entries, last)
    && Exact(job, revision, state, records, Some(draft.bytes))
  }

  lemma CurrentWrittenDown(job: Job, revision: nat, progress: Progress,
                           state: Option<Progress>, records: Option<seq<Entry>>, persisted: nat, draft: Draft,
                           state': Option<Progress>, records': Option<seq<Entry>>)
    requires Current(job, revision, state, records, persisted, draft, progress.lastTileId, progress.written)
    requires progress.revision == revision && progress.dataBytes == draft.dataBytes
    requires progress.addressed == draft.addressed && progress.clustered == draft.clustered
    requires state' == Some(progress.(entryCount := |draft.entries|))
    requires var was := if persisted > 0 then records.value else [];
             var from := TailFrom(persisted, |draft.entries|);
             records' == Some(Rewritten(was, from, draft.entries, |draft.entries| - from))
    ensures Current(job, revision, state', records', |draft.entries|, draft, progress.lastTileId, progress.written)
    ensures Unbroken(job, revision, state, records, draft, progress.lastTileId, progress.written) ==>
              Unbroken(job, revision, state', records', draft, progress.lastTileId, progress.written)
  {
    WrittenDown(job, revision, progress, if persisted > 0 then records.value else [], draft, state', records');
    hide Covers, Sane, Exact, Draft.Sound, Draft.Apart, BakedTo, InStep, Rewritten, EndsBy, Draft.Tiles;
  }

  lemma CurrentAfterTile(job: Job, revision: nat, state: Option<Progress>, records: Option<seq<Entry>>, persisted: nat,
                         a: Draft, last: int, written: nat, id: nat, data: Bytes)
    requires job.Valid() && Current(job, revision, state, records, persisted, a, last, written) &&
             Next(job, last, id, data)
    ensures Current(job, revision, state, records, persisted, a.Written(id, data), id, written + 1)
    ensures Unbroken(job, revision, state, records, a, last, written) ==>
              Unbroken(job, revision, state, records, a.Written(id, data), id, written + 1)
  {
    CoverWritten(job, a, last, id, data);
    WritingKeepsBelow(a, id, data);
    WritingGrowsOnlyLast(if persisted > 0 then records.value else [], a, id, data);
    WrittenEndsAt(a, id, data);
    DiskKeeps(job, revision, state, records, a.bytes, a.Written(id, data).bytes, a.dataBytes);
    BakedOneMore(job, last, id);
    hide Covers, Sane, Exact, Draft.Sound, Draft.Apart, BakedTo, Draft.Written, OnlyLastGrew, EndsBy, Draft.Tiles;
  }

  lemma CurrentAfterHole(job: Job, revision: nat, state: Option<Progress>, records: Option<seq<Entry>>, persisted: nat,
                         a: Draft, last: int, written: nat, id: nat)
    requires job.Valid() && Current(job, revision, state, records, persisted, a, last, written)
    requires last < id && id in job.ids && forall u: nat :: last < u <= id ==> !job.Wanted(u)
    ensures Current(job, revision, state, records, persisted, a, id, written)
    ensures Unbroken(job, revision, state, records, a, last, written) ==>
            Unbroken(job, revision, state, records, a, id, written)
  {
    assert !job.Wanted(id) && job.TileFor(id).None?;
    CoverPasses(job, a.entries, a.bytes, a.dataBytes, last, id);
    BakedOneMore(job, last, id);
    hide Covers, Sane, Exact, Draft.Sound, Draft.Apart, BakedTo, InStep;
  }

  /**
   Everything outside the bake's control, by the number of the batch or of the
   id it happens at: the signal to stop, a merge that fails, the process dying
   after some tiles of a batch or part way into a checkpoint, and the clock,
   which may say that a checkpoint is due.
   */
  datatype Events = Events(
    stopAtId: nat -> bool, stopBefore: nat -> bool, mergeFails: nat -> bool, diesAfter: nat -> Option<nat>,
    due: nat -> bool, diesWriting: nat -> Option<nat>, stopAfter: nat -> bool, diesStopping: Option<nat>)
  {
    /** Nothing goes wrong and nobody stops it. */
    ghost predicate Calm() {
      forall n: nat :: !stopAtId(n) && !stopBefore(n) && !mergeFails(n) && diesAfter(n).None? && diesWriting(n).None? &&
        !stopAfter(n)
    }

    /** It is never killed part way into a checkpoint. */
    ghost predicate NeverTears() {
      diesStopping.None? && forall n: nat :: diesWriting(n).None?
    }
  }

  /** How far a batch's first so many ids reach. */
  ghost function UpToBatch(batch: seq<nat>, k: nat, before: int): int
    requires k <= |batch|
  {
    if k == 0 then before else batch[k - 1]
  }

  /** Nothing stops a batch of so many, nor the run after it. */
  ghost predicate GoesThrough(events: Events, n: nat, size: nat) {
    && !events.stopBefore(n) && !events.mergeFails(n) && !events.stopAfter(n)
    && (events.diesAfter(n).Some? ==> size <= events.diesAfter(n).value)
  }

  /** How far a run has got, how far the state file says it has, and how many ids it is behind by. */
  datatype Mark = Mark(last: int, saved: int, since: nat)

  /** A batch written in full moves the mark on; once enough has gathered, or the clock says so, all is saved. */
  ghost function MovedBy(events: Events, n: nat, every: int, batch: seq<nat>, mark: Mark): Mark {
    var all, since := UpToBatch(batch, |batch|, mark.last), mark.since + |batch|;
    if since >= every || events.due(n) then Mark(all, all, 0) else Mark(all, mark.saved, since)
  }

  /** What becomes of a batch, and where that leaves the mark. */
  ghost predicate Flushed(events: Events, n: nat, every: int, batch: seq<nat>, status: Status, was: Mark, now: Mark) {
    match status
    case Going =>
      if batch == [] then now == was
      else GoesThrough(events, n, |batch|) && now == MovedBy(events, n, every, batch, was)
    case Stopping =>
      && batch != []
      && if events.stopBefore(n) || events.mergeFails(n) then now == was
         else events.stopAfter(n) && now == MovedBy(events, n, every, batch, was)
    case Killed =>
      && !events.stopBefore(n) && !events.mergeFails(n) && now.saved == was.saved
      && events.diesAfter(n).Some? && events.diesAfter(n).value < |batch|
      && now.last == UpToBatch(batch, events.diesAfter(n).value, was.last)
    case Torn => batch != [] && events.diesWriting(n).Some?
  }

  lemma UpToNone(batch: seq<nat>, before: int)
    ensures UpToBatch(batch, 0, before) == before
  {
  }

  lemma UpToOneMore(batch: seq<nat>, k: nat, before: int)
    requires k < |batch|
    ensures UpToBatch(batch, k + 1, before) == batch[k]
  {
  }

  lemma CalmIs(events: Events, n: nat)
    ensures events.Calm() ==>
              !events.stopBefore(n) && !events.mergeFails(n) && events.diesAfter(n).None? &&
              events.diesWriting(n).None? && !events.stopAfter(n)
    ensures events.NeverTears() ==> events.diesWriting(n).None?
  {
  }

  /** What may become of a batch, case by case. */
  lemma FlushedIs(events: Events, n: nat, every: int, batch: seq<nat>, was: Mark)
    ensures batch == [] ==> Flushed(events, n, every, batch, Going, was, was)
    ensures batch != [] && (events.stopBefore(n) || events.mergeFails(n)) ==>
              Flushed(events, n, every, batch, Stopping, was, was)
    ensures batch != [] && !events.stopBefore(n) && !events.mergeFails(n) ==>
              var dies, all, since := events.diesAfter(n), UpToBatch(batch, |batch|, was.last), was.since + |batch|;
              if dies.Some? && dies.value < |batch| then
                forall now: Mark ::
                  now.saved == was.saved && now.last == UpToBatch(batch, dies.value, was.last) ==>
                  Flushed(events, n, every, batch, Killed, was, now)
              else
                var end := if events.stopAfter(n) then Stopping else Going;
                if since >= every || events.due(n) then
                  && Flushed(events, n, every, batch, end, was, Mark(all, all, 0))
                  && (events.diesWriting(n).Some? ==>
                      forall now: Mark :: Flushed(events, n, every, batch, Torn, was, now))
                else Flushed(events, n, every, batch, end, was, Mark(all, was.saved, since))
  {
  }

  /** Killed between two of its writes, or part way into a checkpoint, which may leave that torn. */
  datatype Status = Going | Stopping | Killed | Torn

  /** The ids of a stream that are past one of them and asked for: what is left to deal with. */
  function Todo(job: Job, last: int, ids: seq<nat>): seq<nat> {
    if ids == [] then []
    else
      var rest, id := Todo(job, last, ids[..|ids| - 1]), ids[|ids| - 1];
      if last < id && job.Asked(id) then rest + [id] else rest
  }

  /** All that is left to deal with, past an id. */
  function LeftTodo(job: Job, last: int): seq<nat> {
    Todo(job, last, job.ids)
  }

  lemma {:induction false} TodoPrefix(job: Job, last: int, ids: seq<nat>, i: nat)
    requires i <= |ids|
    ensures var some, all := Todo(job, last, ids[..i]), Todo(job, last, ids);
            |some| <= |all| && all[..|some|] == some
    decreases |ids|
  {
    if i == |ids| {
      assert ids[..i] == ids;
    } else {
      var n := |ids| - 1;
      TodoPrefix(job, last, ids[..n], i);
      assert ids[..n][..i] == ids[..i];
    }
  }

  lemma TodoOneMore(job: Job, last: int, ids: seq<nat>, i: nat)
    requires i < |ids|
    ensures var some, all := Todo(job, last, ids[..i]), Todo(job, last, ids);
            if last < ids[i] && job.Asked(ids[i])
            then |some| < |all| && all[|some|] == ids[i] && |Todo(job, last, ids[..i + 1])| == |some| + 1
            else |Todo(job, last, ids[..i + 1])| == |some|
  {
    assert ids[..i + 1][..i] == ids[..i];
    var some, more := Todo(job, last, ids[..i]), Todo(job, last, ids[..i + 1]);
    TodoPrefix(job, last, ids, i + 1);
    if last < ids[i] && job.Asked(ids[i]) {
      assert more == some + [ids[i]];
    }
  }

  lemma {:induction false} TodoHas(job: Job, last: int, ids: seq<nat>, k: nat) returns (j: nat)
    requires k < |Todo(job, last, ids)|
    ensures j < |ids| && Todo(job, last, ids)[k] == ids[j] && last < ids[j] && job.Asked(ids[j])
  {
    var n := |ids| - 1;
    if k < |Todo(job, last, ids[..n])| {
      j := TodoHas(job, last, ids[..n], k);
    } else {
      j := n;
    }
  }

  /** Past where an id is no longer asked for nothing is. */
  lemma {:induction false} TodoEnds(job: Job, last: int, ids: seq<nat>, i: nat)
    requires Climbs(ids) && i < |ids| && !job.to.Allows(ids[i])
    ensures Todo(job, last, ids[..i]) == Todo(job, last, ids)
    decreases |ids|
  {
    var n := |ids| - 1;
    assert ids[i] <= ids[n] && !job.Asked(ids[n]);
    if i < n {
      TodoEnds(job, last, ids[..n], i);
      assert ids[..n][..i] == ids[..i];
    }
  }

  lemma {:induction false} TodoClimbs(job: Job, last: int, ids: seq<nat>)
    requires Climbs(ids)
    ensures Climbs(Todo(job, last, ids))
  {
    if ids != [] {
      var n := |ids| - 1;
      TodoClimbs(job, last, ids[..n]);
      var rest := Todo(job, last, ids[..n]);
      forall k | 0 <= k < |rest|
        ensures rest[k] < ids[n]
      {
        var j := TodoHas(job, last, ids[..n], k);
      }
    }
  }

  /** Further on there is the end of what there was to do: all that is past there. */
  lemma {:induction false} TodoFurtherOn(job: Job, start: int, last: int, ids: seq<nat>) returns (j: nat)
    requires Climbs(ids) && start <= last
    ensures var todo := Todo(job, start, ids);
            && j <= |todo| && Todo(job, last, ids) == todo[j..]
            && forall k :: 0 <= k < |todo| ==> (k < j <==> todo[k] <= last)
  {
    if ids == [] {
      j := 0;
    } else {
      var n := |ids| - 1;
      j := TodoFurtherOn(job, start, last, ids[..n]);
      var rest := Todo(job, start, ids[..n]);
      if start < ids[n] && job.Asked(ids[n]) {
        if last < ids[n] {
          assert (rest + [ids[n]])[j..] == rest[j..] + [ids[n]];
        } else {
          EarlierToo(job, start, last, ids[..n]);
          j := |rest| + 1;
        }
      }
    }
  }

  lemma EarlierToo(job: Job, start: int, last: int, ids: seq<nat>)
    requires forall i :: 0 <= i < |ids| ==> ids[i] <= last
    ensures Todo(job, last, ids) == []
    ensures forall id :: id in Todo(job, start, ids) ==> id <= last
  {
    forall id | id in Todo(job, start, ids)
      ensures id <= last
    {
      var k :| 0 <= k < |Todo(job, start, ids)| && Todo(job, start, ids)[k] == id;
      var j := TodoHas(job, start, ids, k);
    }
    if Todo(job, last, ids) != [] {
      var j := TodoHas(job, last, ids, 0);
    }
  }

  /** A run picked up from where so many were dealt with has the rest left to do. */
  lemma RestIsLeft(job: Job, start: int, k: nat)
    requires job.Valid() && k <= |LeftTodo(job, start)|
    ensures start <= UpToBatch(LeftTodo(job, start), k, start)
    ensures LeftTodo(job, UpToBatch(LeftTodo(job, start), k, start)) == LeftTodo(job, start)[k..]
  {
    var todo := LeftTodo(job, start);
    var last := UpToBatch(todo, k, start);
    TodoClimbs(job, start, job.ids);
    if k > 0 {
      var i := TodoHas(job, start, job.ids, k - 1);
    }
    if k < |todo| {
      var i := TodoHas(job, start, job.ids, k);
    }
    var j := TodoFurtherOn(job, start, last, job.ids);
    assert k > 0 ==> todo[k - 1] <= last;
    assert k < |todo| ==> last < todo[k];
  }

  /** A walk stands before id i of the stream: so many are dealt with, and the next are in the batch. */
  ghost predicate Along(job: Job, start: int, i: nat, batch: seq<nat>, dealt: nat, last: int) {
    var todo := LeftTodo(job, start);
    && i <= |job.ids| && |Todo(job, start, job.ids[..i])| == dealt + |batch| <= |todo|
    && batch == todo[dealt..dealt + |batch|] && last == UpToBatch(todo, dealt, start)
  }

  lemma StartsAlong(job: Job, start: int)
    ensures Along(job, start, 0, [], 0, start)
  {
  }

  lemma PassesAlong(job: Job, start: int, i: nat, batch: seq<nat>, dealt: nat, last: int)
    requires Along(job, start, i, batch, dealt, last) && i < |job.ids|
    requires job.ids[i] <= start || !job.Asked(job.ids[i])
    ensures Along(job, start, i + 1, batch, dealt, last)
  {
    TodoOneMore(job, start, job.ids, i);
    hide Todo;
  }

  lemma TakesAlong(job: Job, start: int, i: nat, batch: seq<nat>, dealt: nat, last: int)
    requires Along(job, start, i, batch, dealt, last) && i < |job.ids|
    requires start < job.ids[i] && job.Asked(job.ids[i])
    ensures Along(job, start, i + 1, batch + [job.ids[i]], dealt, last)
  {
    TodoOneMore(job, start, job.ids, i);
    var todo, n := LeftTodo(job, start), dealt + |batch|;
    assert todo[dealt..n + 1] == todo[dealt..n] + [todo[n]];
    hide Todo;
  }

  lemma DealsAlong(job: Job, start: int, i: nat, batch: seq<nat>, dealt: nat, last: int, now: int)
    requires Along(job, start, i, batch, dealt, last) && now == UpToBatch(batch, |batch|, last)
    ensures Along(job, start, i, [], dealt + |batch|, now)
  {
    hide Todo;
  }

  /** What a walk has dealt with is behind it in the stream, so what comes next is past it. */
  lemma NextIsPast(job: Job, start: int, i: nat, batch: seq<nat>, dealt: nat, last: int)
    requires job.Valid() && Along(job, start, i, batch, dealt, last) && i < |job.ids|
    ensures start <= last && (job.ids[i] <= last ==> job.ids[i] <= start)
  {
    if dealt > 0 {
      var some := Todo(job, start, job.ids[..i]);
      TodoPrefix(job, start, job.ids, i);
      var j := TodoHas(job, start, job.ids[..i], dealt - 1);
      assert LeftTodo(job, start)[dealt - 1] == some[dealt - 1];
      assert job.ids[j] < job.ids[i];
    }
    hide Todo;
  }

  lemma EndsAlong(job: Job, start: int, i: nat, batch: seq<nat>, dealt: nat, last: int)
    requires job.Valid() && Along(job, start, i, batch, dealt, last) && (i < |job.ids| ==> !job.to.Allows(job.ids[i]))
    ensures dealt + |batch| == |LeftTodo(job, start)|
  {
    if i < |job.ids| {
      TodoEnds(job, start, job.ids, i);
    } else {
      assert job.ids[..i] == job.ids;
    }
    hide Todo;
  }

  /** Where a batch ends among what there is to do, in batches of a size. */
  ghost function BatchEnd(todo: seq<nat>, size: nat, n: nat): nat {
    if (n + 1) * size <= |todo| then (n + 1) * size else |todo|
  }

  /** The first batches all go through. */
  ghost predicate AllGo(events: Events, size: nat, todo: seq<nat>, n: nat) {
    n * size <= |todo| && forall k: nat :: k < n ==> GoesThrough(events, k, size)
  }

  /** The first so many ids are written down, and with them every batch the clock said to write down after. */
  ghost predicate SavedPast(events: Events, size: nat, todo: seq<nat>, start: int, n: nat, count: nat, saved: int) {
    && count <= |todo| && saved == UpToBatch(todo, count, start)
    && forall k: nat :: k < n && events.due(k) ==> (k + 1) * size <= count
  }

  /** A run stands between batches: all so far went through, and all but the last few ids are written down. */
  ghost predicate Between(events: Events, size: nat, every: int, todo: seq<nat>, start: int, n: nat, count: nat,
                          saved: int)
  {
    && AllGo(events, size, todo, n) && SavedPast(events, size, todo, start, n, count, saved)
    && count <= n * size && (count < n * size ==> n * size - count < every)
  }

  /** One that is stopped in a batch, or on the way to it, has dealt with all before; and with it, if stopped after. */
  ghost predicate StoppedIn(events: Events, size: nat, todo: seq<nat>, start: int, n: nat, last: int) {
    && AllGo(events, size, todo, n)
    && (|| (last == UpToBatch(todo, n * size, start) &&
            (events.stopBefore(n) || events.mergeFails(n) || exists i: nat :: events.stopAtId(i)))
        || (last == UpToBatch(todo, BatchEnd(todo, size, n), start) && n * size < |todo| && events.stopAfter(n)))
  }

  /** One that is killed in a batch has written down all before but fewer than a checkpoint is due after. */
  ghost predicate KilledIn(events: Events, size: nat, every: int, todo: seq<nat>, start: int, n: nat, count: nat,
                           saved: int)
  {
    && Between(events, size, every, todo, start, n, count, saved)
    && events.diesAfter(n).Some? && n * size + events.diesAfter(n).value < BatchEnd(todo, size, n)
  }

  /** One killed part way into a checkpoint leaves what was written down before. */
  ghost predicate TornIn(events: Events, size: nat, todo: seq<nat>, start: int, n: nat, count: nat, saved: int) {
    && AllGo(events, size, todo, n) && SavedPast(events, size, todo, start, n, count, saved)
    && (events.diesWriting(n).Some? || events.diesStopping.Some?)
  }

  /** One that ends has gone through every batch. */
  ghost predicate AllWent(events: Events, size: nat, todo: seq<nat>) {
    forall k: nat :: k * size < |todo| ==> GoesThrough(events, k, BatchEnd(todo, size, k) - k * size)
  }

  /** How a walk leaves off in a batch. */
  ghost predicate HaltedIn(status: Status, events: Events, size: nat, every: int, todo: seq<nat>, start: int, n: nat,
                           mark: Mark)
  {
    match status
    case Going => true
    case Stopping =>
      StoppedIn(events, size, todo, start, n, mark.last) &&
      exists count: nat :: SavedPast(events, size, todo, start, n, count, mark.saved)
    case Killed => exists count: nat :: KilledIn(events, size, every, todo, start, n, count, mark.saved)
    case Torn => exists count: nat :: TornIn(events, size, todo, start, n, count, mark.saved)
  }

  /** The walk stands before id i, so many full batches on. */
  ghost predicate Walked(job: Job, start: int, events: Events, size: nat, every: int, i: nat, batch: seq<nat>, n: nat,
                         mark: Mark)
  {
    && |batch| < size && mark.since <= n * size
    && Along(job, start, i, batch, n * size, mark.last)
    && Between(events, size, every, LeftTodo(job, start), start, n, n * size - mark.since, mark.saved)
  }

  lemma WalkStarts(job: Job, start: int, events: Events, size: nat, every: int)
    requires 0 < size
    ensures Walked(job, start, events, size, every, 0, [], 0, Mark(start, start, 0))
  {
    StartsAlong(job, start);
    hide Todo, LeftTodo;
  }

  lemma WalkPasses(job: Job, start: int, events: Events, size: nat, every: int, i: nat, batch: seq<nat>, n: nat,
                   mark: Mark)
    requires Walked(job, start, events, size, every, i, batch, n, mark) && i < |job.ids|
    requires job.ids[i] <= start || !job.Asked(job.ids[i])
    ensures Walked(job, start, events, size, every, i + 1, batch, n, mark)
  {
    PassesAlong(job, start, i, batch, n * size, mark.last);
    hide Along, Between;
  }

  /** It stands there with a batch that has just filled. */
  ghost predicate Filled(job: Job, start: int, events: Events, size: nat, every: int, i: nat, batch: seq<nat>, n: nat,
                         mark: Mark)
  {
    && |batch| == size > 0 && mark.since <= n * size
    && Along(job, start, i, batch, n * size, mark.last)
    && Between(events, size, every, LeftTodo(job, start), start, n, n * size - mark.since, mark.saved)
  }

  /** An id taken leaves the batch short, or fills it. */
  lemma WalkTakes(job: Job, start: int, events: Events, size: nat, every: int, i: nat, batch: seq<nat>, n: nat,
                  mark: Mark)
    requires Walked(job, start, events, size, every, i, batch, n, mark) && i < |job.ids|
    requires start < job.ids[i] && job.Asked(job.ids[i])
    ensures if |batch + [job.ids[i]]| >= size
            then Filled(job, start, events, size, every, i + 1, batch + [job.ids[i]], n, mark)
            else Walked(job, start, events, size, every, i + 1, batch + [job.ids[i]], n, mark)
  {
    TakesAlong(job, start, i, batch, n * size, mark.last);
    hide Along, Between;
  }

  lemma WalkIsPast(job: Job, start: int, events: Events, size: nat, every: int, i: nat, batch: seq<nat>, n: nat,
                   mark: Mark)
    requires job.Valid() && Walked(job, start, events, size, every, i, batch, n, mark) && i < |job.ids|
    ensures start <= mark.last && (job.ids[i] <= mark.last ==> job.ids[i] <= start)
  {
    NextIsPast(job, start, i, batch, n * size, mark.last);
  }

  lemma WalkStops(job: Job, start: int, events: Events, size: nat, every: int, i: nat, batch: seq<nat>, n: nat,
                  mark: Mark, at: nat)
    requires Walked(job, start, events, size, every, i, batch, n, mark) && events.stopAtId(at)
    ensures HaltedIn(Stopping, events, size, every, LeftTodo(job, start), start, n, mark)
  {
    hide Todo, LeftTodo;
  }

  lemma GoesOn(events: Events, size: nat, every: int, todo: seq<nat>, start: int, n: nat, mark: Mark)
    ensures HaltedIn(Going, events, size, every, todo, start, n, mark)
  {
  }

  lemma Times(n: nat, size: nat)
    ensures (n + 1) * size == n * size + size
  {
  }

  /** A full batch that goes through leaves the run between batches again. */
  lemma BetweenAgain(events: Events, size: nat, every: int, todo: seq<nat>, start: int, n: nat, batch: seq<nat>,
                     was: Mark)
    requires was.since <= n * size && Between(events, size, every, todo, start, n, n * size - was.since, was.saved)
    requires |batch| == size && n * size + size <= |todo| && batch == todo[n * size..n * size + size]
    requires 0 < size && GoesThrough(events, n, size)
    ensures var now := MovedBy(events, n, every, batch, was);
            now.since <= (n + 1) * size &&
            Between(events, size, every, todo, start, n + 1, (n + 1) * size - now.since, now.saved)
  {
    Times(n, size);
    hide GoesThrough;
    var now := MovedBy(events, n, every, batch, was);
    forall k: nat | k < n + 1 && events.due(k)
      ensures (k + 1) * size <= (n + 1) * size - now.since
    {
      if k < n {
        assert (k + 1) * size <= n * size - was.since;
      }
    }
  }

  /** How a batch may leave the run off. */
  lemma FlushHalts(events: Events, size: nat, every: int, todo: seq<nat>, start: int, n: nat, batch: seq<nat>,
                   status: Status, was: Mark, now: Mark)
    requires was.since <= n * size && Between(events, size, every, todo, start, n, n * size - was.since, was.saved)
    requires n * size + |batch| == BatchEnd(todo, size, n)
    requires batch == todo[n * size..n * size + |batch|] && was.last == UpToBatch(todo, n * size, start)
    requires Flushed(events, n, every, batch, status, was, now) && (status.Torn? ==> now.saved == was.saved)
    ensures HaltedIn(status, events, size, every, todo, start, n, now)
  {
    hide GoesThrough, AllGo, MovedBy;
    match status
    case Going =>
    case Stopping =>
      assert SavedPast(events, size, todo, start, n, n * size - was.since, was.saved);
      if !(events.stopBefore(n) || events.mergeFails(n)) {
        StoppedAfter(events, size, every, todo, start, n, batch, was);
      }
    case Killed => assert KilledIn(events, size, every, todo, start, n, n * size - was.since, was.saved);
    case Torn => assert TornIn(events, size, todo, start, n, n * size - was.since, was.saved);
  }

  lemma StoppedAfter(events: Events, size: nat, every: int, todo: seq<nat>, start: int, n: nat, batch: seq<nat>,
                     was: Mark)
    requires was.since <= n * size && SavedPast(events, size, todo, start, n, n * size - was.since, was.saved)
    requires batch != [] && n * size + |batch| <= |todo|
    requires batch == todo[n * size..n * size + |batch|] && was.last == UpToBatch(todo, n * size, start)
    ensures var now := MovedBy(events, n, every, batch, was);
            && now.last == UpToBatch(todo, n * size + |batch|, start)
            && exists count: nat :: SavedPast(events, size, todo, start, n, count, now.saved)
  {
    var now := MovedBy(events, n, every, batch, was);
    var count := if now.saved == was.saved then n * size - was.since else n * size + |batch|;
    assert SavedPast(events, size, todo, start, n, count, now.saved);
  }

  lemma TimesMore(k: nat, n: nat, size: nat)
    requires k <= n
    ensures k * size <= n * size
  {
  }

  /** The last batch, which is short, is all that is left. */
  lemma LastGoes(events: Events, size: nat, todo: seq<nat>, n: nat, left: nat)
    requires AllGo(events, size, todo, n) && left < size && n * size + left == |todo|
    requires left > 0 ==> GoesThrough(events, n, left)
    ensures AllWent(events, size, todo)
  {
    forall k: nat | k * size < |todo|
      ensures GoesThrough(events, k, BatchEnd(todo, size, k) - k * size)
    {
      Times(k, size);
      Times(n, size);
      if k < n {
        TimesMore(k + 1, n, size);
      } else {
        if k > n {
          TimesMore(n + 1, k, size);
        }
        assert k == n && BatchEnd(todo, size, n) == |todo|;
      }
    }
  }

  class Session {
    const dir: WorkDir
    const revision: nat
    const job: Job
    var writer: PMTilesWriter
    var written: nat
    var skipped: nat
    var lastTileId: int
    var persisted: nat
    const checkpointEvery: int
    var since: nat
    const deduplicate: bool

    /** The archive so far covers the bake up to lastTileId, and so does whatever could be resumed from. */
    ghost predicate Valid()
      reads this`writer, this`written, this`lastTileId, this`persisted, dir, writer, writer.handle
    {
      && job.Valid() && job.NoEmptyTiles()
      && dir.tiles == writer.handle
      && Current(job, revision, dir.state, dir.records, persisted, writer.State(), lastTileId, written)
    }

    /** And so far nothing was ever torn, so it holds exactly the tiles up to there. */
    ghost predicate Faithful()
      requires Valid()
      reads this`writer, this`written, this`lastTileId, this`persisted, dir, writer, writer.handle
    {
      Unbroken(job, revision, dir.state, dir.records, writer.State(), lastTileId, written)
    }

    /** And tiles are stored as was asked, which a run that was picked up does not know. */
    ghost predicate Tidy()
      reads this`writer, writer, writer.handle
    {
      AsAsked(writer.State(), deduplicate)
    }

    /** How far the state file says the bake has got. */
    ghost function Saved(): int
      reads dir
    {
      if dir.state.Some? then dir.state.value.lastTileId else -1
    }

    ghost function Marked(): Mark
      reads this`lastTileId, this`since, dir
    {
      Mark(lastTileId, Saved(), since)
    }

    /** Picks up a checkpoint, or starts afresh over an empty file. */
    constructor (dir: WorkDir, revision: nat, deduplicate: bool, checkpointEvery: int, job: Job)
      requires job.Valid() && job.NoEmptyTiles()
      requires Sane(job, revision, dir.state, dir.records, dir.Tiles())
      modifies dir, dir.tiles
      ensures this.dir == dir && this.revision == revision && this.job == job
      ensures this.checkpointEvery == checkpointEvery && Marked() == Mark(lastTileId, lastTileId, 0)
      ensures lastTileId == old(dir.ResumesAt(revision))
      ensures fresh(writer) && (writer.handle == old(dir.tiles) || fresh(writer.handle))
      ensures Valid()
      ensures old(Exact(job, revision, dir.state, dir.records, dir.Tiles())) ==> Faithful()
      ensures this.deduplicate == deduplicate && (old(dir.ReadCheckpoint(revision)).None? ==> Tidy())
    {
      this.dir, this.revision, this.job := dir, revision, job;
      var found := dir.ReadCheckpoint(revision);
      var resumed: PMTilesWriter;
      var at := Progress(revision, -1, 0, 0, 0, 0, true, 0);
      if found.Some? {
        at := found.value.progress;
        CoverIsWithin(job, found.value.entries, dir.tiles.bytes, at.dataBytes, at.lastTileId);
        resumed := new PMTilesWriter.Reopen(dir.tiles, found.value.entries, at.dataBytes, at.addressed, at.clustered,
                                            deduplicate);
        CoveredIsApart(job, resumed.State(), at.lastTileId);
      } else {
        dir.ClearCheckpoint();
        var file := new File();
        dir.tiles := file;
        resumed := new PMTilesWriter.Open(file, deduplicate);
        assert resumed.State().ApartBy(map[]);
        NothingBakedYet(job);
      }
      writer := resumed;
      written, skipped, lastTileId := at.written, at.skipped, at.lastTileId;
      persisted := if found.Some? then |found.value.entries| else 0;
      this.checkpointEvery, since, this.deduplicate := checkpointEvery, 0, deduplicate;
    }

    /** A tile the merge answered is written; the next id is dealt with. */
    method WriteNext(id: nat, data: Bytes)
      requires Valid() && Next(job, lastTileId, id, data)
      modifies this`written, this`lastTileId, writer, writer.handle
      ensures Valid() && lastTileId == id && written == old(written) + 1
      ensures old(Faithful()) ==> Faithful()
      ensures old(Tidy()) ==> Tidy()
    {
      ghost var state, records := dir.state, dir.records;
      CurrentAfterTile(job, revision, state, records, persisted, writer.State(), lastTileId, written, id, data);
      assert writer.Valid() && writer.State().Sound();
      if Tidy() {
        WritingKeepsAsAsked(writer.State(), id, data, deduplicate);
      }
      hide Current, Unbroken, AsAsked;
      writer.WriteTile(id, data);
      written := written + 1;
      lastTileId := id;
    }

    /** A tile nothing covers is a hole to leave; the next id is dealt with all the same. */
    method PassNext(id: nat)
      requires Valid() && lastTileId < id && id in job.ids
      requires forall u: nat :: lastTileId < u <= id ==> !job.Wanted(u)
      modifies this`skipped, this`lastTileId
      ensures Valid() && lastTileId == id && written == old(written)
      ensures old(Faithful()) ==> Faithful()
    {
      CurrentAfterHole(job, revision, dir.state, dir.records, persisted, writer.State(), lastTileId, written, id);
      hide Current, Unbroken;
      skipped := skipped + 1;
      lastTileId := id;
    }

    /** Writes down where the bake has got to, or is stopped part way. */
    method Checkpoint(dies: Option<nat>) returns (done: bool)
      requires Valid()
      modifies this`persisted, this`since, dir`records, dir`state
      ensures done ==> Valid()
      ensures done && old(Faithful()) ==> Faithful()
      ensures done ==> dir.state.Some? && Marked() == Mark(lastTileId, lastTileId, 0)
      ensures !done ==> Sane(job, revision, dir.state, dir.records, Some(writer.handle.bytes))
      ensures !done ==> dir.state == old(dir.state) || dir.state.None?
      ensures dies.None? ==> done
    {
      var progress := Progress(revision, lastTileId, written, skipped, writer.offset, writer.addressed,
                               writer.clustered, 0);
      ghost var state, records, was, draft := dir.state, dir.records, persisted, writer.State();
      assert persisted <= |writer.entries| && (persisted > 0 ==> dir.records.Some? && |dir.records.value| == persisted);
      hide Current, Unbroken, TailFrom, Rewritten;
      done, persisted := dir.WriteCheckpoint(progress, writer.entries, persisted, dies);
      if done {
        since := 0;
        CurrentWrittenDown(job, revision, progress, state, records, was, draft, dir.state, dir.records);
      } else {
        StoppedWriting(job, revision, state, records, was, draft, lastTileId, written, dir.state, dir.records);
      }
    }

    /** The batch is every id up to `upTo` that is asked for and not yet dealt with, in order. */
    ghost predicate Pending(batch: seq<nat>, upTo: int)
      reads this`lastTileId
    {
      PendingAfter(job, lastTileId, batch, upTo)
    }

    lemma PendingReaches(batch: seq<nat>, upTo: int)
      requires Pending(batch, upTo)
      ensures lastTileId <= upTo
    {
    }

    /** An id that is not asked for is not waited for. */
    lemma Passed(batch: seq<nat>, i: nat, upTo: int)
      requires job.Valid() && Pending(batch, upTo) && i < |job.ids| && upTo < job.ids[i] && !job.Asked(job.ids[i])
      requires forall k :: 0 <= k < i ==> job.ids[k] <= upTo
      ensures Pending(batch, job.ids[i])
    {
      forall u: nat | job.Wanted(u) && lastTileId < u <= job.ids[i]
        ensures u in batch
      {
        var k :| 0 <= k < |job.ids| && job.ids[k] == u;
        assert k < i;
      }
    }

    /** One that is joins the batch. */
    lemma Taken(batch: seq<nat>, i: nat, upTo: int)
      requires job.Valid() && Pending(batch, upTo) && i < |job.ids| && upTo < job.ids[i] && job.Asked(job.ids[i])
      requires forall k :: 0 <= k < i ==> job.ids[k] <= upTo
      ensures Pending(batch + [job.ids[i]], job.ids[i])
    {
      forall u: nat | job.Wanted(u) && lastTileId < u <= job.ids[i]
        ensures u in batch + [job.ids[i]]
      {
        var k :| 0 <= k < |job.ids| && job.ids[k] == u;
        assert k <= i;
      }
    }

    /** One tile of a batch, merged already, is written or passed over. */
    method DealWith(batch: seq<nat>, data: Option<Bytes>, ghost upTo: int)
      requires Valid() && batch != [] && Pending(batch, upTo) && data == job.merge(batch[0])
      modifies this`written, this`skipped, this`lastTileId, this`since, writer, writer.handle
      ensures Valid() && Pending(batch[1..], upTo) && old(lastTileId) < lastTileId == batch[0]
      ensures since == old(since) + 1
      ensures old(Faithful()) ==> Faithful()
      ensures old(Tidy()) ==> Tidy()
    {
      var id := batch[0];
      FirstIsNext(job, lastTileId, batch, upTo, data);
      RestIsPending(job, lastTileId, batch, upTo);
      hide Current, Job.Wanted, PendingAfter, Next;
      if data.Some? {
        WriteNext(id, data.value);
      } else {
        PassNext(id);
      }
      since := since + 1;
    }

    /** A batch's tiles are merged together and written in order, unless the process dies on the way. */
    method WriteBatch(batch: seq<nat>, dies: Option<nat>, ghost upTo: int) returns (killed: bool)
      requires Valid() && Pending(batch, upTo)
      modifies this`written, this`skipped, this`lastTileId, this`since, writer, writer.handle
      ensures Valid() && (old(Faithful()) ==> Faithful()) && (old(Tidy()) ==> Tidy())
      ensures !killed ==> since == old(since) + |batch|
      ensures killed <==> dies.Some? && dies.value < |batch|
      ensures lastTileId == UpToBatch(batch, if killed then dies.value else |batch|, old(lastTileId))
      ensures !killed ==> Pending([], upTo) && old(lastTileId) <= lastTileId <= upTo
    {
      hide *;
      var merged := seq(|batch|, k requires 0 <= k < |batch| => job.merge(batch[k]));
      assert batch[0..] == batch && batch[|batch|..] == [];
      UpToNone(batch, lastTileId);
      for k := 0 to |batch|
        invariant Valid() && Pending(batch[k..], upTo) && old(lastTileId) <= lastTileId
        invariant (old(Faithful()) ==> Faithful()) && (old(Tidy()) ==> Tidy())
        invariant lastTileId == UpToBatch(batch, k, old(lastTileId)) && since == old(since) + k
        invariant dies.Some? ==> k <= dies.value
      {
        if dies == Some(k) {
          return true;
        }
        UpToOneMore(batch, k, old(lastTileId));
        assert batch[k..][1..] == batch[k + 1..] && batch[k..][0] == batch[k];
        DealWith(batch[k..], merged[k], upTo);
      }
      PendingReaches(batch[|batch|..], upTo);
      killed := false;
    }

    /** Merges a batch together, then writes it in order. */
    method Flush(batch: seq<nat>, n: nat, events: Events, ghost upTo: int) returns (status: Status)
      requires Valid() && Pending(batch, upTo)
      modifies this`written, this`skipped, this`lastTileId, this`persisted, this`since, writer, writer.handle,
        dir`records, dir`state
      ensures status.Torn? ==> Sane(job, revision, dir.state, dir.records, Some(writer.handle.bytes))
      ensures !status.Torn? ==> Valid() && (old(Faithful()) ==> Faithful()) && (old(Tidy()) ==> Tidy())
      ensures events.Calm() ==> status.Going?
      ensures events.NeverTears() ==> !status.Torn?
      ensures status.Going? ==> Pending([], upTo) && old(lastTileId) <= lastTileId <= upTo
      ensures status.Torn? ==> dir.state.None? || Marked().saved == old(Marked()).saved
      ensures Flushed(events, n, checkpointEvery, batch, status, old(Marked()), Marked())
    {
      CalmIs(events, n);
      PendingReaches(batch, upTo);
      FlushedIs(events, n, checkpointEvery, batch, Marked());
      MarkedIs();
      hide *;
      if |batch| == 0 {
        return Going;
      }
      if events.stopBefore(n) || events.mergeFails(n) {
        return Stopping;
      }
      var killed := WriteBatch(batch, events.diesAfter(n), upTo);
      MarkedIs();
      if killed {
        return Killed;
      }
      if since >= checkpointEvery || events.due(n) {
        var done := Checkpoint(events.diesWriting(n));
        MarkedIs();
        if !done {
          return Torn;
        }
      }
      return if events.stopAfter(n) then Stopping else Going;
    }

    lemma MarkedIs()
      ensures Marked() == Mark(lastTileId, if dir.state.Some? then dir.state.value.lastTileId else -1, since)
    {
    }

    /** The walk stands before id i: everything up to `upTo` is dealt with or in the batch. */
    ghost predicate At(i: nat, batch: seq<nat>, upTo: int)
      reads this`lastTileId
    {
      && i <= |job.ids| && lastTileId <= upTo && Pending(batch, upTo)
      && (forall k :: 0 <= k < i ==> job.ids[k] <= upTo)
      && (i < |job.ids| ==> if job.ids[i] <= lastTileId then upTo == lastTileId else upTo < job.ids[i])
    }

    lemma MovedOn(i: nat, batch: seq<nat>, upTo: int)
      requires job.Valid() && i < |job.ids| && lastTileId <= upTo && Pending(batch, upTo)
      requires forall k :: 0 <= k < i ==> job.ids[k] <= upTo
      requires upTo == job.ids[i] || (job.ids[i] <= lastTileId && upTo == lastTileId)
      ensures At(i + 1, batch, upTo)
    {
    }

    /** One id of the stream: skipped, passed over, or taken into the batch, which is flushed once it is full. */
    method Pull(i: nat, batch: seq<nat>, n: nat, batchSize: nat, events: Events, ghost upTo: int, ghost start: int)
      returns (status: Status, next: seq<nat>, flushed: nat, past: bool, ghost reached: int)
      requires Valid() && At(i, batch, upTo) && i < |job.ids|
      requires Walked(job, start, events, batchSize, checkpointEvery, i, batch, n, Marked())
      modifies this`written, this`skipped, this`lastTileId, this`persisted, this`since, writer, writer.handle,
        dir`records, dir`state
      ensures status.Torn? ==> Sane(job, revision, dir.state, dir.records, Some(writer.handle.bytes))
      ensures !status.Torn? ==> Valid() && (old(Faithful()) ==> Faithful()) && (old(Tidy()) ==> Tidy())
      ensures events.Calm() ==> status.Going?
      ensures events.NeverTears() ==> !status.Torn?
      ensures status.Going? ==>
              if past then !job.to.Allows(job.ids[i]) && At(i, next, reached) else At(i + 1, next, reached)
      ensures status.Going? ==>
                Walked(job, start, events, batchSize, checkpointEvery, if past then i else i + 1, next, flushed,
                       Marked())
      ensures HaltedIn(status, events, batchSize, checkpointEvery, LeftTodo(job, start), start, n, Marked()) ||
              (status.Torn? && dir.state.None?)
    {
      status, next, flushed, past, reached := Going, batch, n, false, upTo;
      assert job.Valid();
      WalkIsPast(job, start, events, batchSize, checkpointEvery, i, batch, n, Marked());
      Passes(i, batch, n, batchSize, events, start);
      hide Session.Valid, Session.Faithful, Session.Tidy, Session.Pending, Walked, HaltedIn, Session.Marked;
      var id := job.ids[i];
      if id <= lastTileId {
        MovedOn(i, batch, upTo);
        return;
      }
      if !job.to.Allows(id) {
        past := true;
        return;
      }
      if id < job.from {
        Passed(batch, i, upTo);
        reached := id;
        MovedOn(i, batch, id);
        return;
      }
      if events.stopAtId(i) {
        WalkStops(job, start, events, batchSize, checkpointEvery, i, batch, n, Marked(), i);
        status := Stopping;
        return;
      }
      if !job.selects(id) {
        skipped := skipped + 1;
        Passed(batch, i, upTo);
        reached := id;
        MovedOn(i, batch, id);
        return;
      }
      Taken(batch, i, upTo);
      status, next, flushed := Take(i, batch, n, batchSize, events, start);
      reached := id;
      if status.Going? {
        MovedOn(i, next, id);
      }
    }

    /** Takes an id into the batch. */
    method Take(i: nat, batch: seq<nat>, n: nat, batchSize: nat, events: Events, ghost start: int)
      returns (status: Status, next: seq<nat>, flushed: nat)
      requires Valid() && i < |job.ids| && start < job.ids[i] && job.Asked(job.ids[i])
      requires Pending(batch + [job.ids[i]], job.ids[i])
      requires Walked(job, start, events, batchSize, checkpointEvery, i, batch, n, Marked())
      modifies this`written, this`skipped, this`lastTileId, this`persisted, this`since, writer, writer.handle,
        dir`records, dir`state
      ensures status.Torn? ==> Sane(job, revision, dir.state, dir.records, Some(writer.handle.bytes))
      ensures !status.Torn? ==> Valid() && (old(Faithful()) ==> Faithful()) && (old(Tidy()) ==> Tidy())
      ensures events.Calm() ==> status.Going?
      ensures events.NeverTears() ==> !status.Torn?
      ensures status.Going? ==> Pending(next, job.ids[i]) && lastTileId <= job.ids[i]
      ensures status.Going? ==>
                Walked(job, start, events, batchSize, checkpointEvery, i + 1, next, flushed, Marked())
      ensures HaltedIn(status, events, batchSize, checkpointEvery, LeftTodo(job, start), start, n, Marked()) ||
              (status.Torn? && dir.state.None?)
    {
      WalkTakes(job, start, events, batchSize, checkpointEvery, i, batch, n, Marked());
      status, next, flushed := Going, batch + [job.ids[i]], n;
      PendingReaches(next, job.ids[i]);
      GoesOn(events, batchSize, checkpointEvery, LeftTodo(job, start), start, n, Marked());
      hide *;
      if |next| >= batchSize {
        ghost var was := Marked();
        status := Flush(next, n, events, job.ids[i]);
        FullBatch(i, next, n, batchSize, events, start, status, was);
        next, flushed := [], n + 1;
      }
    }

    /** An id dealt with before the walk began, or not asked for, is walked past. */
    lemma Passes(i: nat, batch: seq<nat>, n: nat, batchSize: nat, events: Events, start: int)
      requires Walked(job, start, events, batchSize, checkpointEvery, i, batch, n, Marked()) && i < |job.ids|
      ensures job.ids[i] <= start || !job.Asked(job.ids[i]) ==>
                Walked(job, start, events, batchSize, checkpointEvery, i + 1, batch, n, Marked())
    {
      if job.ids[i] <= start || !job.Asked(job.ids[i]) {
        WalkPasses(job, start, events, batchSize, checkpointEvery, i, batch, n, Marked());
      }
    }

    /** A batch that has just filled goes through, or the walk leaves off in it. */
    lemma FullBatch(i: nat, batch: seq<nat>, n: nat, size: nat, events: Events, start: int, status: Status, was: Mark)
      requires Filled(job, start, events, size, checkpointEvery, i + 1, batch, n, was)
      requires Flushed(events, n, checkpointEvery, batch, status, was, Marked())
      requires status.Torn? ==> dir.state.None? || Marked().saved == was.saved
      ensures status.Going? ==> Walked(job, start, events, size, checkpointEvery, i + 1, [], n + 1, Marked())
      ensures HaltedIn(status, events, size, checkpointEvery, LeftTodo(job, start), start, n, Marked()) ||
              (status.Torn? && dir.state.None?)
    {
      Times(n, size);
      if status.Going? {
        BetweenAgain(events, size, checkpointEvery, LeftTodo(job, start), start, n, batch, was);
        DealsAlong(job, start, i + 1, batch, n * size, was.last, Marked().last);
      } else if !status.Torn? || Marked().saved == was.saved {
        FlushHalts(events, size, checkpointEvery, LeftTodo(job, start), start, n, batch, status, was, Marked());
      }
    }

    /** So does what is left once the stream has ended. */
    lemma LastBatch(i: nat, batch: seq<nat>, n: nat, size: nat, events: Events, start: int, status: Status, was: Mark)
      requires job.Valid() && (i < |job.ids| ==> !job.to.Allows(job.ids[i]))
      requires Walked(job, start, events, size, checkpointEvery, i, batch, n, was)
      requires Flushed(events, n, checkpointEvery, batch, status, was, Marked())
      requires status.Torn? ==> dir.state.None? || Marked().saved == was.saved
      ensures status.Going? ==> AllWent(events, size, LeftTodo(job, start))
      ensures HaltedIn(status, events, size, checkpointEvery, LeftTodo(job, start), start, n, Marked()) ||
              (status.Torn? && dir.state.None?)
    {
      EndsAlong(job, start, i, batch, n * size, was.last);
      Times(n, size);
      if status.Going? {
        LastGoes(events, size, LeftTodo(job, start), n, |batch|);
      } else if !status.Torn? || Marked().saved == was.saved {
        FlushHalts(events, size, checkpointEvery, LeftTodo(job, start), start, n, batch, status, was, Marked());
      }
    }

    /** Walks the stream, a batch at a time, until it ends or something stops it. */
    method Run(batchSize: nat, events: Events) returns (status: Status)
      requires Valid() && 0 < batchSize && Marked() == Mark(lastTileId, lastTileId, 0)
      modifies this`written, this`skipped, this`lastTileId, this`persisted, this`since, writer, writer.handle,
        dir`records, dir`state
      ensures status.Torn? ==> Sane(job, revision, dir.state, dir.records, Some(writer.handle.bytes))
      ensures !status.Torn? ==> Valid() && (old(Faithful()) ==> Faithful()) && (old(Tidy()) ==> Tidy())
      ensures events.Calm() ==> status.Going?
      ensures events.NeverTears() ==> !status.Torn?
      ensures status.Going? ==> forall u: nat :: job.Wanted(u) ==> u <= lastTileId
      ensures status.Going? ==> AllWent(events, batchSize, LeftTodo(job, old(lastTileId)))
      ensures !status.Going? && (status.Torn? ==> dir.state.Some?) ==>
                exists n: nat :: HaltedIn(status, events, batchSize, checkpointEvery,
                                          LeftTodo(job, old(lastTileId)), old(lastTileId), n, Marked())
    {
      var batch: seq<nat> := [];
      var n, i, past := 0, 0, false;
      ghost var upTo, start := lastTileId, lastTileId;
      status := Going;
      assert At(0, [], upTo);
      WalkStarts(job, start, events, batchSize, checkpointEvery);
      hide Session.Valid, Session.Faithful, Session.Tidy, Session.At, Walked, HaltedIn, Session.Marked, AllWent;
      while i < |job.ids| && !past
        invariant Valid() && At(i, batch, upTo)
        invariant (old(Faithful()) ==> Faithful()) && (old(Tidy()) ==> Tidy())
        invariant past ==> i < |job.ids| && !job.to.Allows(job.ids[i])
        invariant status.Going? && Walked(job, start, events, batchSize, checkpointEvery, i, batch, n, Marked())
        decreases |job.ids| - i, !past
      {
        ghost var at := n;
        status, batch, n, past, upTo := Pull(i, batch, n, batchSize, events, upTo, start);
        if !status.Going? {
          assert (status.Torn? && dir.state.None?) ||
                 HaltedIn(status, events, batchSize, checkpointEvery, LeftTodo(job, start), start, at, Marked());
          return;
        }
        if !past {
          i := i + 1;
        }
      }
      status := Finish(i, batch, n, batchSize, events, upTo, start);
    }

    /** What is left in the batch once the stream has ended. */
    method Finish(i: nat, batch: seq<nat>, n: nat, ghost batchSize: nat, events: Events, ghost upTo: int,
                  ghost start: int)
      returns (status: Status)
      requires Valid() && At(i, batch, upTo) && (i < |job.ids| ==> !job.to.Allows(job.ids[i]))
      requires Walked(job, start, events, batchSize, checkpointEvery, i, batch, n, Marked())
      modifies this`written, this`skipped, this`lastTileId, this`persisted, this`since, writer, writer.handle,
        dir`records, dir`state
      ensures status.Torn? ==> Sane(job, revision, dir.state, dir.records, Some(writer.handle.bytes))
      ensures !status.Torn? ==> Valid() && (old(Faithful()) ==> Faithful()) && (old(Tidy()) ==> Tidy())
      ensures events.Calm() ==> status.Going?
      ensures events.NeverTears() ==> !status.Torn?
      ensures status.Going? ==> forall u: nat :: job.Wanted(u) ==> u <= lastTileId
      ensures status.Going? ==> AllWent(events, batchSize, LeftTodo(job, start))
      ensures HaltedIn(status, events, batchSize, checkpointEvery, LeftTodo(job, start), start, n, Marked()) ||
              (status.Torn? && dir.state.None?)
    {
      assert job.Valid();
      hide Session.Valid, Session.Faithful, Session.Tidy, Session.Pending, Walked, HaltedIn, Session.Marked, AllWent;
      ghost var was := Marked();
      status := Flush(batch, n, events, upTo);
      LastBatch(i, batch, n, batchSize, events, start, status, was);
      if status.Going? {
        NothingAfter(i, upTo);
      }
    }

    /** Past the end of the stream, or of what is asked for, nothing is wanted. */
    lemma NothingAfter(i: nat, upTo: int)
      requires job.Valid() && Pending([], upTo) && i <= |job.ids|
      requires forall k :: 0 <= k < i ==> job.ids[k] <= upTo
      requires i < |job.ids| ==> !job.to.Allows(job.ids[i])
      ensures forall u: nat :: job.Wanted(u) ==> u <= lastTileId
    {
      assert forall k :: i <= k < |job.ids| ==> job.ids[i] <= job.ids[k] && !job.to.Allows(job.ids[k]);
      forall u: nat | job.Wanted(u)
        ensures u <= lastTileId
      {
        var k :| 0 <= k < |job.ids| && job.ids[k] == u;
        assert k < i;
      }
    }

    lemma CanBeResumed()
      requires Valid()
      ensures dir.tiles == writer.handle && Sane(job, revision, dir.state, dir.records, dir.Tiles())
      ensures Faithful() ==> Exact(job, revision, dir.state, dir.records, dir.Tiles())
    {
      hide Covers, Draft.Sound, InStep, Sane, Exact;
    }

    /** A state file in step with the session is read back as it is. */
    lemma SavedIsRead()
      requires Valid()
      ensures dir.ResumesAt(revision) == Saved() == Marked().saved && Marked().last == lastTileId
      ensures dir.state.Some? ==> dir.ReadCheckpoint(revision).Some?
    {
      hide Covers, Draft.Sound, Sane, Exact, OnlyLastGrew;
    }

    lemma ReadsWhatIsSaved()
      ensures dir.ReadCheckpoint(revision).Some? ==> dir.ResumesAt(revision) == Saved() == Marked().saved
      ensures dir.state.None? ==> dir.ReadCheckpoint(revision).None?
    {
    }

    lemma IsAllWritten()
      requires Valid() && forall u: nat :: job.Wanted(u) ==> u <= lastTileId
      ensures written == |Baked(job, job.ids)|
    {
      BakedAll(job, lastTileId);
    }

    /** Everything is written: the archive is made of it, and the working files go. */
    method Conclude() returns (r: Outcome)
      requires Valid() && written > 0 && forall u: nat :: job.Wanted(u) ==> u <= lastTileId
      modifies dir
      ensures dir.tiles == null && dir.state.None? && dir.records.None?
      ensures r.Finished? && Answers(job, r.archive) && r.written == written == |Baked(job, job.ids)|
      ensures CoversAll(job, r.archive.entries, r.archive.data)
      ensures old(Faithful()) ==> IsWhole(job, r.archive)
      ensures old(Tidy()) ==> r.archive.Valid() && StoredAsAsked(r.archive, deduplicate)
    {
      BakedAll(job, lastTileId);
      CoverAscends(job, writer.entries, writer.handle.bytes, writer.offset, lastTileId);
      SomethingIsWanted(job, job.ids);
      var some :| some in job.ids && job.TileFor(some).Some?;
      assert job.Wanted(some);
      CoverHasAnEntry(job, writer.State(), lastTileId);
      ghost var faithful := Faithful();
      var archive := writer.Finalize();
      CoveredArchiveAnswers(job, writer.State(), lastTileId, archive.value);
      if Tidy() {
        ArchiveIsAsAsked(writer.State(), archive.value, deduplicate);
      }
      r := Finished(archive.value, written);
      dir.ClearCheckpoint();
    }

    /** Everything is dealt with: an archive is made of what is written, if anything is. */
    method End(allowEmpty: bool) returns (r: Outcome)
      requires Valid() && forall u: nat :: job.Wanted(u) ==> u <= lastTileId
      modifies dir
      ensures dir.tiles == null && dir.state.None? && dir.records.None?
      ensures r.Ended()
      ensures r.Finished? ==> Answers(job, r.archive) && r.written == |Baked(job, job.ids)| && r.written > 0
      ensures r.Finished? ==> CoversAll(job, r.archive.entries, r.archive.data)
      ensures r.Empty? || r.NothingToWrite? ==> Baked(job, job.ids) == [] && r.Empty? == allowEmpty
      ensures old(Faithful()) && r.Finished? ==> IsWhole(job, r.archive)
      ensures old(Tidy()) && r.Finished? ==> r.archive.Valid() && StoredAsAsked(r.archive, deduplicate)
    {
      IsAllWritten();
      hide *;
      if written == 0 {
        dir.ClearCheckpoint();
        r := if allowEmpty then Empty else NothingToWrite;
      } else {
        r := Conclude();
      }
    }

    /** Something came between: a bake that is stopped writes down where it has got to. */
    method Halt(status: Status, size: nat, events: Events, ghost start: int) returns (r: Outcome)
      requires !status.Going? && job.Valid()
      requires !status.Torn? ==> Valid()
      requires status.Torn? ==> Sane(job, revision, dir.state, dir.records, dir.Tiles())
      requires !(status.Torn? && dir.state.None?) ==>
                 exists n: nat ::
                   HaltedIn(status, events, size, checkpointEvery, LeftTodo(job, start), start, n, Marked())
      modifies this`persisted, this`since, dir`records, dir`state
      ensures Sane(job, revision, dir.state, dir.records, dir.Tiles())
      ensures old(!status.Torn? && Faithful()) && r != Crashed(true) ==>
                Exact(job, revision, dir.state, dir.records, dir.Tiles())
      ensures !r.Ended()
      ensures status.Torn? ==> r == Crashed(true)
      ensures r == Crashed(true) ==> status.Torn? || events.diesStopping.Some?
      ensures LeavesOff(r, events, size, checkpointEvery, LeftTodo(job, start), start,
                        dir.ReadCheckpoint(revision).Some?, dir.ResumesAt(revision))
    {
      ghost var n: nat, mark := 0, Marked();
      ReadsWhatIsSaved();
      if !(status.Torn? && dir.state.None?) {
        n :| HaltedIn(status, events, size, checkpointEvery, LeftTodo(job, start), start, n, mark);
      }
      hide *;
      match status
      case Torn => r := Crashed(true);
      case Killed =>
        CanBeResumed();
        SavedIsRead();
        r := Crashed(false);
      case Stopping =>
        SavedIsRead();
        var done := Checkpoint(events.diesStopping);
        if done {
          CanBeResumed();
          SavedIsRead();
        }
        ReadsWhatIsSaved();
        r := if done then Stopped else Crashed(true);
      LeftOff(status, r, job, events, size, checkpointEvery, start, n, mark, dir.ReadCheckpoint(revision).Some?,
              dir.ResumesAt(revision));
    }
  }

  /** An archive that covers part of a bake holds no empty tile. */
  lemma CoveredIsApart(job: Job, a: Draft, last: int)
    requires Covers(job, a.entries, a.bytes, a.dataBytes, last)
    requires a.seen.Some? ==> a.seen.value == map[]
    ensures a.Apart()
  {
    forall i | 0 <= i < |a.entries|
      ensures 0 < a.entries[i].length
    {
      assert Right(job, a.entries[i], a.bytes, a.dataBytes);
    }
    assert a.ApartBy(map[]);
  }

  lemma {:induction false} SomethingIsWanted(job: Job, ids: seq<nat>)
    ensures Baked(job, ids) != [] ==> exists u :: u in ids && job.TileFor(u).Some?
  {
    if ids != [] {
      var n := |ids| - 1;
      SomethingIsWanted(job, ids[..n]);
      assert ids[n] in ids;
    }
  }

  lemma CoverHasAnEntry(job: Job, a: Draft, last: int)
    requires Covers(job, a.entries, a.bytes, a.dataBytes, last)
    requires exists u: nat :: job.Wanted(u) && u <= last
    ensures a.entries != []
  {
    var u: nat :| job.Wanted(u) && u <= last;
    assert Find(a.entries, u).Some?;
  }

  lemma NothingBakedYet(job: Job)
    requires job.Valid()
    ensures BakedTo(job, -1) == []
    ensures Covers(job, [], [], 0, -1)
  {
    UpToHolds(job.ids, -1);
  }

  /** How a bake ended. */
  datatype Outcome = Finished(archive: PMTiles, written: nat) | Empty | NothingToWrite | Stopped | Crashed(torn: bool) {
    predicate Ended() {
      Finished? || Empty? || NothingToWrite?
    }
  }

  /** Looked up, the archive answers exactly what the bake wants, at every id. */
  ghost predicate Answers(job: Job, archive: PMTiles) {
    && archive.Valid() && NoEmptyRuns(archive.entries)
    && forall id: nat ::
         var found := Find(archive.entries, id);
         && (found.Some? <==> job.Wanted(id))
         && (found.Some? ==>
             found.value.Within(|archive.data|) &&
             found.value.Data(archive.data) == job.TileFor(id).value)
  }

  /** The archive holds exactly the bake's tiles, in order, and its header counts them. */
  ghost predicate IsWhole(job: Job, archive: PMTiles) {
    && archive.Valid() && OneLength(archive.entries) && NoEmptyRuns(archive.entries)
    && archive.Tiles() == Baked(job, job.ids)
    && archive.addressed == |Baked(job, job.ids)| && archive.clustered
  }

  lemma CoveredArchiveAnswers(job: Job, draft: Draft, last: int, archive: PMTiles)
    requires draft.Sound() && Covers(job, draft.entries, draft.bytes, draft.dataBytes, last)
    requires forall u: nat :: job.Wanted(u) ==> u <= last
    requires archive.entries == draft.entries && archive.data == draft.bytes[..draft.dataBytes]
    ensures Answers(job, archive) && CoversAll(job, archive.entries, archive.data)
  {
    var n := draft.dataBytes;
    forall i | 0 <= i < |archive.entries|
      ensures 0 < archive.entries[i].runLength
    {
      assert Right(job, draft.entries[i], draft.bytes, n);
    }
    CoverKeeps(job, draft.entries, draft.bytes, archive.data, n, n, last);
    CoveredAll(job, archive.entries, archive.data, last);
    forall id: nat
      ensures var found := Find(archive.entries, id);
              && (found.Some? <==> job.Wanted(id))
              && (found.Some? ==>
                  found.value.Within(|archive.data|) &&
                  found.value.Data(archive.data) == job.TileFor(id).value)
    {
      var reach := if last < id then id as int else last;
      CoverPasses(job, archive.entries, archive.data, n, last, reach);
      CoverAnswers(job, archive.entries, archive.data, n, reach, id);
    }
  }

  lemma CoverAscends(job: Job, entries: seq<Entry>, bytes: Bytes, size: nat, last: int)
    requires Covers(job, entries, bytes, size, last)
    ensures Ascends(entries, EarlierEntry)
  {
  }

  /** How many tiles are merged at a time. */
  function BatchSize(concurrency: int): (size: nat)
    ensures 0 < size && concurrency <= size && (size == 1 || size == concurrency)
  {
    if concurrency < 1 then 1 else concurrency
  }

  /** Where a run that has not ended leaves its directory, by what can be read back of it. */
  ghost predicate LeavesOff(r: Outcome, events: Events, size: nat, every: int, todo: seq<nat>, start: int,
                            found: bool, now: int)
  {
    match r
    case Stopped => found && exists n: nat :: StoppedIn(events, size, todo, start, n, now)
    case Crashed(false) => exists n: nat, count: nat :: KilledIn(events, size, every, todo, start, n, count, now)
    case Crashed(true) =>
      found ==> exists n: nat, count: nat :: TornIn(events, size, todo, start, n, count, now)
    case _ => !found && AllWent(events, size, todo)
  }

  /** What reads back after a run that has not ended names one of the ids there were to deal with, or where it began. */
  lemma ReadsSomewhere(r: Outcome, events: Events, size: nat, every: int, todo: seq<nat>, start: int, found: bool,
                       now: int)
    returns (k: nat)
    requires !r.Ended() && LeavesOff(r, events, size, every, todo, start, found, now) && (r == Crashed(true) ==> found)
    ensures k <= |todo| && now == UpToBatch(todo, k, start)
  {
    hide GoesThrough;
    match r
    case Stopped =>
      var n: nat :| StoppedIn(events, size, todo, start, n, now);
      k := if now == UpToBatch(todo, n * size, start) then n * size else BatchEnd(todo, size, n);
    case Crashed(torn) =>
      if torn {
        var n: nat, count: nat :| TornIn(events, size, todo, start, n, count, now);
        k := count;
      } else {
        var n: nat, count: nat :| KilledIn(events, size, every, todo, start, n, count, now);
        k := count;
      }
  }

  /** A run never leaves its directory behind where it found it, unless a checkpoint it tore cannot be read. */
  lemma NeverGoesBack(r: Outcome, job: Job, events: Events, size: nat, every: int, start: int, found: bool, now: int)
    requires job.Valid() && !r.Ended() && LeavesOff(r, events, size, every, LeftTodo(job, start), start, found, now)
    requires r == Crashed(true) ==> found
    ensures start <= now
  {
    hide *;
    var k := ReadsSomewhere(r, events, size, every, LeftTodo(job, start), start, found, now);
    RestIsLeft(job, start, k);
  }

  /** How a halted walk leaves the directory once the process is gone. */
  lemma HaltsLeaveOff(status: Status, r: Outcome, events: Events, size: nat, every: int, todo: seq<nat>, start: int,
                      n: nat, mark: Mark, found: bool, now: int)
    requires HaltedIn(status, events, size, every, todo, start, n, mark)
    ensures status.Torn? && (found ==> now == mark.saved) ==>
              LeavesOff(Crashed(true), events, size, every, todo, start, found, now)
    ensures status.Killed? && now == mark.saved ==>
              LeavesOff(Crashed(false), events, size, every, todo, start, found, now)
    ensures status.Stopping? && found && now == mark.last ==>
              LeavesOff(Stopped, events, size, every, todo, start, found, now)
    ensures status.Stopping? && events.diesStopping.Some? && (found ==> now == mark.saved) ==>
              LeavesOff(Crashed(true), events, size, every, todo, start, found, now)
  {
    hide AllGo, SavedPast, StoppedIn, KilledIn;
    match status
    case Going =>
    case Stopping =>
      var count: nat :| SavedPast(events, size, todo, start, n, count, mark.saved);
      assert events.diesStopping.Some? ==> TornIn(events, size, todo, start, n, count, mark.saved) by {
        StoppedIs(events, size, todo, start, n, mark.last);
      }
    case Killed =>
      var count: nat :| KilledIn(events, size, every, todo, start, n, count, mark.saved);
    case Torn =>
      var count: nat :| TornIn(events, size, todo, start, n, count, mark.saved);
  }

  lemma EndsLeaveOff(r: Outcome, events: Events, size: nat, every: int, todo: seq<nat>, start: int, now: int)
    requires r.Ended() && AllWent(events, size, todo)
    ensures LeavesOff(r, events, size, every, todo, start, false, now)
  {
  }

  lemma LeftOff(status: Status, r: Outcome, job: Job, events: Events, size: nat, every: int, start: int, n: nat,
                mark: Mark, found: bool, now: int)
    requires job.Valid()
    requires (status.Torn? && !found) || HaltedIn(status, events, size, every, LeftTodo(job, start), start, n, mark)
    requires match r
             case Crashed(true) =>
               (status.Torn? || (status.Stopping? && events.diesStopping.Some?)) && (found ==> now == mark.saved)
             case Crashed(false) => status.Killed? && now == mark.saved
             case Stopped => status.Stopping? && found && now == mark.last
             case _ => false
    ensures LeavesOff(r, events, size, every, LeftTodo(job, start), start, found, now)
  {
    if status.Torn? && !found {
    } else {
      HaltsLeaveOff(status, r, events, size, every, LeftTodo(job, start), start, n, mark, found, now);
    }
  }

  lemma StoppedIs(events: Events, size: nat, todo: seq<nat>, start: int, n: nat, last: int)
    requires StoppedIn(events, size, todo, start, n, last)
    ensures AllGo(events, size, todo, n)
  {
  }

  /**
   Runs a bake from wherever the working directory says it had got to. Whatever
   happens on the way, the directory is left so that the next run picks it up:
   what can be read back covers the bake as far as it says. A run that finishes
   has an archive that answers every id as the bake wants and counts every tile
   once, whatever the batch size, however often it was written down, and however
   often it was stopped, failed or died before; and where it was never killed
   half way into a checkpoint, the archive is the one a single run would have
   written, tile for tile. A run that is stopped has written down all it had
   dealt with; one that is killed has lost less than a checkpoint's worth of
   whole batches; and neither leaves off before where it began.
   */
  method BakeStack(dir: WorkDir, revision: nat, job: Job, concurrency: int, checkpointEvery: int, deduplicate: bool,
                   allowEmpty: bool, events: Events)
    returns (r: Outcome)
    requires job.Valid() && job.NoEmptyTiles()
    requires Sane(job, revision, dir.state, dir.records, dir.Tiles())
    modifies dir, dir.tiles
    ensures dir.tiles == old(dir.tiles) || dir.tiles == null || fresh(dir.tiles)
    ensures Sane(job, revision, dir.state, dir.records, dir.Tiles())
    ensures r.Finished? ==> Answers(job, r.archive) && r.written == |Baked(job, job.ids)| && r.written > 0
    ensures r.Finished? ==> CoversAll(job, r.archive.entries, r.archive.data)
    ensures r.Empty? || r.NothingToWrite? ==> Baked(job, job.ids) == [] && r.Empty? == allowEmpty
    ensures old(Exact(job, revision, dir.state, dir.records, dir.Tiles())) && r != Crashed(true) ==>
              Exact(job, revision, dir.state, dir.records, dir.Tiles()) && (r.Finished? ==> IsWhole(job, r.archive))
    ensures old(dir.ReadCheckpoint(revision)).None? && r.Finished? ==>
              r.archive.Valid() && StoredAsAsked(r.archive, deduplicate)
    ensures events.Calm() ==> r.Ended()
    ensures events.NeverTears() ==> r != Crashed(true)
    ensures r.Ended() ==> dir.tiles == null && dir.records.None? && dir.state.None?
    ensures LeavesOff(r, events, BatchSize(concurrency), checkpointEvery, LeftTodo(job, old(dir.ResumesAt(revision))),
                      old(dir.ResumesAt(revision)), dir.ReadCheckpoint(revision).Some?, dir.ResumesAt(revision))
    ensures r.Stopped? || r == Crashed(false) || (r == Crashed(true) && dir.ReadCheckpoint(revision).Some?) ==>
              old(dir.ResumesAt(revision)) <= dir.ResumesAt(revision)
  {
    var size := BatchSize(concurrency);
    NothingToResume(job, revision);
    var session := new Session(dir, revision, deduplicate, checkpointEvery, job);
    session.CanBeResumed();
    hide Session.Valid, Session.Faithful, Session.Tidy, Sane, Exact, IsWhole, Answers, CoversAll, Events.Calm,
         Events.NeverTears, LeftTodo, HaltedIn, LeavesOff, AllWent;
    ghost var start := session.lastTileId;
    var status := session.Run(size, events);
    if status.Going? {
      r := session.End(allowEmpty);
      EndsLeaveOff(r, events, size, checkpointEvery, LeftTodo(job, start), start, dir.ResumesAt(revision));
    } else {
      r := session.Halt(status, size, events, start);
      ghost var found := dir.ReadCheckpoint(revision).Some?;
      if r != Crashed(true) || found {
        NeverGoesBack(r, job, events, size, checkpointEvery, start, found, dir.ResumesAt(revision));
      }
    }
  }

  /** Without files there is nothing to resume. */
  lemma NothingToResume(job: Job, revision: nat)
    ensures Sane(job, revision, None, None, None) && Exact(job, revision, None, None, None)
  {
  }

  /** One run of a bake: how many tiles it merges at a time, and what happens to it. */
  datatype Attempt = Attempt(concurrency: int, checkpointEvery: int, deduplicate: bool, events: Events)

  /** Nothing comes between before a first batch is dealt with, nor kills it before that is written down. */
  ghost predicate GetsOn(events: Events) {
    && (forall i: nat :: !events.stopAtId(i)) && !events.stopBefore(0) && !events.mergeFails(0) && events.NeverTears()
    && (forall n: nat :: events.diesAfter(n).Some? ==> n > 0 && events.due(0))
  }

  /** Such a run leaves less to do than it found. */
  lemma GettingOn(r: Outcome, job: Job, events: Events, size: nat, every: int, start: int, found: bool, now: int)
    requires job.Valid() && !r.Ended() && 0 < size && GetsOn(events) && r != Crashed(true)
    requires LeavesOff(r, events, size, every, LeftTodo(job, start), start, found, now)
    ensures |LeftTodo(job, now)| < |LeftTodo(job, start)|
  {
    var todo := LeftTodo(job, start);
    var k := DealsWithSome(r, events, size, every, todo, start, found, now);
    hide *;
    RestIsLeft(job, start, k);
  }

  lemma DealsWithSome(r: Outcome, events: Events, size: nat, every: int, todo: seq<nat>, start: int, found: bool,
                      now: int)
    returns (k: nat)
    requires !r.Ended() && 0 < size && GetsOn(events) && r != Crashed(true)
    requires LeavesOff(r, events, size, every, todo, start, found, now)
    ensures 0 < k <= |todo| && now == UpToBatch(todo, k, start)
  {
    hide GoesThrough, Events.NeverTears;
    match r
    case Stopped =>
      var n: nat :| StoppedIn(events, size, todo, start, n, now);
      Times(n, size);
      if n > 0 {
        TimesMore(1, n, size);
      }
      k := if now == UpToBatch(todo, BatchEnd(todo, size, n), start) then BatchEnd(todo, size, n) else n * size;
    case Crashed(torn) =>
      var n: nat, count: nat :| KilledIn(events, size, every, todo, start, n, count, now);
      assert (0 + 1) * size <= count;
      k := count;
  }

  ghost predicate NoneTears(attempts: seq<Attempt>) {
    forall k :: 0 <= k < |attempts| ==> attempts[k].events.NeverTears()
  }

  ghost predicate SomeIsCalm(attempts: seq<Attempt>) {
    exists k :: 0 <= k < |attempts| && attempts[k].events.Calm()
  }

  ghost predicate AllGetOn(attempts: seq<Attempt>) {
    forall k :: 0 <= k < |attempts| ==> GetsOn(attempts[k].events)
  }

  lemma OneMoreRun(attempts: seq<Attempt>, n: nat)
    requires n < |attempts|
    ensures NoneTears(attempts[..n + 1]) <==> NoneTears(attempts[..n]) && attempts[n].events.NeverTears()
    ensures SomeIsCalm(attempts[..n + 1]) <==> SomeIsCalm(attempts[..n]) || attempts[n].events.Calm()
    ensures AllGetOn(attempts[..n + 1]) <==> AllGetOn(attempts[..n]) && GetsOn(attempts[n].events)
  {
    hide Events.NeverTears, Events.Calm, GetsOn;
    assert attempts[..n + 1] == attempts[..n] + [attempts[n]];
    assert attempts[..n + 1][n] == attempts[n];
    if SomeIsCalm(attempts[..n]) {
      var k :| 0 <= k < n && attempts[..n][k].events.Calm();
      assert attempts[..n + 1][k].events.Calm();
    }
  }

  /** A run that a torn checkpoint did not lose begins no earlier than the one before it. */
  ghost predicate Follows(a: Attempt, start: int, now: int) {
    start <= now || (!a.events.NeverTears() && now == -1)
  }

  /** Where each run began: the first afresh, the others where the one before left off or after. */
  ghost predicate Onward(attempts: seq<Attempt>, began: seq<int>)
    requires |began| <= |attempts| + 1
  {
    && (began != [] ==> began[0] == -1)
    && forall k :: 0 < k < |began| ==> Follows(attempts[k - 1], began[k - 1], began[k])
  }

  lemma OnwardMore(attempts: seq<Attempt>, began: seq<int>, now: int)
    requires |began| <= |attempts| && Onward(attempts, began)
    requires if began == [] then now == -1 else Follows(attempts[|began| - 1], began[|began| - 1], now)
    ensures Onward(attempts, began + [now])
  {
  }

  /** An ended bake has come to what it wants, and to an archive exactly where that is anything. */
  ghost predicate EndsRight(r: Outcome, job: Job, allowEmpty: bool) {
    && (r.Finished? <==> Baked(job, job.ids) != []) && (r.Empty? ==> allowEmpty) && (r.NothingToWrite? ==> !allowEmpty)
    && (r.Finished? ==>
        && Answers(job, r.archive) && r.written == |Baked(job, job.ids)|
        && CoversAll(job, r.archive.entries, r.archive.data))
  }

  lemma EndsRightly(r: Outcome, job: Job, allowEmpty: bool)
    requires r.Finished? ==> Answers(job, r.archive) && r.written == |Baked(job, job.ids)| && r.written > 0
    requires r.Finished? ==> CoversAll(job, r.archive.entries, r.archive.data)
    requires r.Empty? || r.NothingToWrite? ==> Baked(job, job.ids) == [] && r.Empty? == allowEmpty
    requires r.Ended()
    ensures EndsRight(r, job, allowEmpty)
  {
  }

  /** One run, as far as the next is concerned. */
  method RunOnce(dir: WorkDir, revision: nat, job: Job, allowEmpty: bool, a: Attempt) returns (r: Outcome)
    requires job.Valid() && job.NoEmptyTiles()
    requires Sane(job, revision, dir.state, dir.records, dir.Tiles())
    modifies dir, dir.tiles
    ensures dir.tiles == old(dir.tiles) || dir.tiles == null || fresh(dir.tiles)
    ensures Sane(job, revision, dir.state, dir.records, dir.Tiles())
    ensures r.Ended() ==> EndsRight(r, job, allowEmpty)
    ensures old(Exact(job, revision, dir.state, dir.records, dir.Tiles())) && a.events.NeverTears() ==>
              Exact(job, revision, dir.state, dir.records, dir.Tiles()) && (r.Finished? ==> IsWhole(job, r.archive))
    ensures a.events.Calm() ==> r.Ended()
    ensures !r.Ended() ==> Follows(a, old(dir.ResumesAt(revision)), dir.ResumesAt(revision))
    ensures !r.Ended() && GetsOn(a.events) ==>
              |LeftTodo(job, dir.ResumesAt(revision))| < |LeftTodo(job, old(dir.ResumesAt(revision)))|
  {
    hide *;
    ghost var start := dir.ResumesAt(revision);
    r := BakeStack(dir, revision, job, a.concurrency, a.checkpointEvery, a.deduplicate, allowEmpty, a.events);
    GoneOn(r, job, a, start, dir, revision);
    if r.Ended() {
      EndsRightly(r, job, allowEmpty);
    }
  }

  /**
   A bake begun afresh and picked up again for as long as it keeps being
   stopped, failing or being killed. However that goes, a bake that ends has
   written the same as one nothing ever happened to; and it ends with the first
   run that nothing happens to. No run begins before the last one did, unless
   that tore a checkpoint. Runs that each get a batch written down before
   anything happens to them end it too, before there are more of them than ids
   to deal with.
   */
  method BakeUntilDone(revision: nat, job: Job, allowEmpty: bool, attempts: seq<Attempt>)
    returns (r: Outcome, runs: nat, ghost began: seq<int>)
    requires job.Valid() && job.NoEmptyTiles() && attempts != []
    ensures 0 < runs <= |attempts| && (!r.Ended() ==> runs == |attempts|)
    ensures SomeIsCalm(attempts) ==> r.Ended()
    ensures |began| == runs && Onward(attempts, began)
    ensures AllGetOn(attempts) && |LeftTodo(job, -1)| < |attempts| ==> r.Ended()
    ensures r.Ended() ==> EndsRight(r, job, allowEmpty)
    ensures r.Finished? && NoneTears(attempts[..runs]) ==> IsWhole(job, r.archive)
  {
    var dir := new WorkDir();
    BeginsAfresh(dir, revision, job, allowEmpty, attempts);
    hide *;
    r, runs, began := Stopped, 0, [];
    while runs < |attempts| && !r.Ended()
      invariant fresh(dir) && (dir.tiles == null || fresh(dir.tiles))
      invariant Sane(job, revision, dir.state, dir.records, dir.Tiles())
      invariant SoFar(job, allowEmpty, attempts, runs, began, r,
                      Exact(job, revision, dir.state, dir.records, dir.Tiles()), dir.ResumesAt(revision))
      invariant runs <= |attempts|
    {
      ghost var start, exact, was := dir.ResumesAt(revision),
        Exact(job, revision, dir.state, dir.records, dir.Tiles()), r;
      r := RunOnce(dir, revision, job, allowEmpty, attempts[runs]);
      OneMoreSoFar(job, allowEmpty, attempts, runs, began, was, exact, start, r,
                   Exact(job, revision, dir.state, dir.records, dir.Tiles()), dir.ResumesAt(revision));
      began := began + [start];
      runs := runs + 1;
    }
    AllSoFar(job, allowEmpty, attempts, runs, began, r,
             Exact(job, revision, dir.state, dir.records, dir.Tiles()), dir.ResumesAt(revision));
  }

  /** How a bake stands after so many runs, the last of which came to r and left off at `now`. */
  ghost predicate SoFar(job: Job, allowEmpty: bool, attempts: seq<Attempt>, runs: nat, began: seq<int>, r: Outcome,
                        exact: bool, now: int)
  {
    && runs <= |attempts| && |began| == runs && (runs == 0 ==> r.Stopped?)
    && (SomeIsCalm(attempts[..runs]) ==> r.Ended())
    && (r.Ended() ==> EndsRight(r, job, allowEmpty))
    && (NoneTears(attempts[..runs]) ==> exact && (r.Finished? ==> IsWhole(job, r.archive)))
    && Onward(attempts, began) && (!r.Ended() ==> Onward(attempts, began + [now]))
    && (!r.Ended() && AllGetOn(attempts[..runs]) ==> |LeftTodo(job, now)| + runs <= |LeftTodo(job, -1)|)
  }

  lemma OneMoreSoFar(job: Job, allowEmpty: bool, attempts: seq<Attempt>, runs: nat, began: seq<int>, was: Outcome,
                     wasExact: bool, start: int, r: Outcome, exact: bool, now: int)
    requires runs < |attempts| && SoFar(job, allowEmpty, attempts, runs, began, was, wasExact, start) && !was.Ended()
    requires r.Ended() ==> EndsRight(r, job, allowEmpty)
    requires wasExact && attempts[runs].events.NeverTears() ==> exact && (r.Finished? ==> IsWhole(job, r.archive))
    requires attempts[runs].events.Calm() ==> r.Ended()
    requires !r.Ended() ==> Follows(attempts[runs], start, now)
    requires !r.Ended() && GetsOn(attempts[runs].events) ==> |LeftTodo(job, now)| < |LeftTodo(job, start)|
    ensures SoFar(job, allowEmpty, attempts, runs + 1, began + [start], r, exact, now)
  {
    OneMoreRun(attempts, runs);
    if !r.Ended() {
      OnwardMore(attempts, began + [start], now);
    }
    hide SomeIsCalm, NoneTears, AllGetOn, Onward, EndsRight, IsWhole, LeftTodo, Follows, GetsOn, Outcome.Ended,
         Events.Calm, Events.NeverTears;
  }

  lemma AllSoFar(job: Job, allowEmpty: bool, attempts: seq<Attempt>, runs: nat, began: seq<int>, r: Outcome,
                 exact: bool, now: int)
    requires SoFar(job, allowEmpty, attempts, runs, began, r, exact, now) && attempts != []
    requires runs < |attempts| ==> r.Ended()
    ensures 0 < runs <= |attempts| && (!r.Ended() ==> runs == |attempts|)
    ensures SomeIsCalm(attempts) ==> r.Ended()
    ensures |began| == runs && Onward(attempts, began)
    ensures AllGetOn(attempts) && |LeftTodo(job, -1)| < |attempts| ==> r.Ended()
    ensures r.Ended() ==> EndsRight(r, job, allowEmpty)
    ensures r.Finished? && NoneTears(attempts[..runs]) ==> IsWhole(job, r.archive)
  {
    assert runs == |attempts| ==> attempts[..runs] == attempts;
    hide SomeIsCalm, NoneTears, AllGetOn, Onward, EndsRight, IsWhole, LeftTodo;
  }

  lemma BeginsAfresh(dir: WorkDir, revision: nat, job: Job, allowEmpty: bool, attempts: seq<Attempt>)
    requires dir.state.None? && dir.records.None? && dir.tiles == null
    ensures Sane(job, revision, dir.state, dir.records, dir.Tiles())
    ensures SoFar(job, allowEmpty, attempts, 0, [], Stopped,
                  Exact(job, revision, dir.state, dir.records, dir.Tiles()), dir.ResumesAt(revision))
  {
    assert [] + [-1] == [-1];
    hide LeftTodo;
  }

  lemma GoneOn(r: Outcome, job: Job, a: Attempt, start: int, dir: WorkDir, revision: nat)
    requires job.Valid()
    requires LeavesOff(r, a.events, BatchSize(a.concurrency), a.checkpointEvery, LeftTodo(job, start), start,
                       dir.ReadCheckpoint(revision).Some?, dir.ResumesAt(revision))
    requires a.events.NeverTears() ==> r != Crashed(true)
    ensures !r.Ended() ==> Follows(a, start, dir.ResumesAt(revision))
    ensures !r.Ended() && GetsOn(a.events) ==> |LeftTodo(job, dir.ResumesAt(revision))| < |LeftTodo(job, start)|
  {
    hide LeftTodo, LeavesOff, Events.NeverTears;
    var found, now := dir.ReadCheckpoint(revision).Some?, dir.ResumesAt(revision);
    if !r.Ended() {
      if r != Crashed(true) || found {
        NeverGoesBack(r, job, a.events, BatchSize(a.concurrency), a.checkpointEvery, start, found, now);
      }
      if GetsOn(a.events) {
        GettingOn(r, job, a.events, BatchSize(a.concurrency), a.checkpointEvery, start, found, now);
      }
    }
  }
}
