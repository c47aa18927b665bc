/**
 Reading which tiles archives hold: the ids of one, entered where a run of them
 begins and left where it ends, and the union of several, merged as streams.
 */
module Scan {
  import opened Archive
  import opened TileIds

  const RUN_CHUNK: nat := 4096

  /** What a root directory lists: a run of tiles, or a leaf directory of them. */
  datatype Slot = Tiles(entry: Entry) | Leaf(tileId: nat, entries: seq<Entry>) {
    function First(): nat {
      if Tiles? then entry.tileId else tileId
    }

    function Entries(): seq<Entry> {
      if Tiles? then [entry] else entries
    }

    /** A leaf that points at another leaf. */
    predicate Nests() {
      Leaf? && exists i :: 0 <= i < |entries| && entries[i].runLength == 0
    }
  }

  ghost predicate RunsFollow(entries: seq<Entry>) {
    forall i, j :: 0 <= i < j < |entries| ==> entries[i].End() <= entries[j].tileId
  }

  /** A directory as the format has it: everything ascends, and a leaf's runs end before the next slot begins. */
  ghost predicate InOrder(root: seq<Slot>) {
    && (forall i, j :: 0 <= i < j < |root| ==> root[i].First() < root[j].First())
    && (forall i :: 0 <= i < |root| ==> RunsFollow(root[i].Entries()))
    && (forall i, e :: 0 <= i < |root| && e in root[i].Entries() ==>
          root[i].First() <= e.tileId && (i + 1 < |root| ==> e.End() <= root[i + 1].First()))
  }

  ghost predicate Holds(entries: seq<Entry>, id: nat) {
    exists e :: e in entries && e.tileId <= id < e.End()
  }

  ghost predicate Stored(root: seq<Slot>, id: nat) {
    exists i :: 0 <= i < |root| && Holds(root[i].Entries(), id)
  }

  /** The stored ids of a run. */
  ghost function WantedIds(root: seq<Slot>, from: nat, to: Limit): iset<nat> {
    iset id: nat | Stored(root, id) && from <= id && to.Allows(id)
  }

  /** A list is what is wanted below an id, in order. */
  ghost predicate Swept(ids: seq<nat>, wanted: iset<nat>, bound: nat) {
    Climbs(ids) && forall id: nat :: id in ids <==> id in wanted && id < bound
  }

  ghost predicate NoneWanted(wanted: iset<nat>, lo: nat, hi: nat) {
    forall id: nat :: lo <= id < hi ==> id !in wanted
  }

  lemma SweptPast(ids: seq<nat>, wanted: iset<nat>, bound: nat, next: nat)
    requires Swept(ids, wanted, bound) && bound <= next
    requires NoneWanted(wanted, bound, next)
    ensures Swept(ids, wanted, next)
  {
  }

  lemma SweptOne(ids: seq<nat>, wanted: iset<nat>, id: nat)
    requires Swept(ids, wanted, id) && id in wanted
    ensures Swept(ids + [id], wanted, id + 1)
  {
    forall i | 0 <= i < |ids|
      ensures ids[i] < id
    {
      assert ids[i] in ids;
    }
  }

  ghost predicate Chunked(chunks: seq<seq<nat>>) {
    forall c :: c in chunks ==> 0 < |c| <= RUN_CHUNK
  }

  /** One more id, and a new chunk once this one is full. */
  method Emit(before: seq<seq<nat>>, pending: seq<nat>, id: nat) returns (chunks: seq<seq<nat>>, batch: seq<nat>)
    requires Chunked(before) && |pending| < RUN_CHUNK
    ensures Flat(chunks) + batch == Flat(before) + pending + [id] && Chunked(chunks) && |batch| < RUN_CHUNK
  {
    chunks, batch := before, pending + [id];
    if |batch| >= RUN_CHUNK {
      FlatOfOneMore(chunks, batch);
      chunks, batch := chunks + [batch], [];
    }
  }

  /** The ids from one up to another. */
  function Ids(lo: nat, hi: int): seq<nat>
    decreases hi - lo
  {
    if hi <= lo then [] else Ids(lo, hi - 1) + [hi - 1]
  }

  function EarlierOf(a: int, b: int): int {
    if a < b then a else b
  }

  function LaterOf(a: nat, b: nat): nat {
    if a < b then b else a
  }

  /** A run's ids, from where the wanted ones begin to where they end. */
  function RunIds(e: Entry, from: nat, to: Limit): seq<nat> {
    Ids(LaterOf(e.tileId, from), if to.Infinity? then e.End() else EarlierOf(e.End(), to.id))
  }

  function EntriesIds(entries: seq<Entry>, from: nat, to: Limit): seq<nat> {
    if entries == [] then []
    else EntriesIds(entries[..|entries| - 1], from, to) + RunIds(entries[|entries| - 1], from, to)
  }

  /** A slot that ends before the wanted ids begin, as far as the root directory says. */
  predicate Skips(root: seq<Slot>, i: nat, from: nat)
    requires i < |root|
  {
    if root[i].Tiles? then root[i].entry.End() <= from else i + 1 < |root| && root[i + 1].First() <= from
  }

  ghost predicate TooEarly(id: nat, from: nat) {
    id < from
  }

  /** Exactly where every id it has, or of a leaf every id before what comes next, is too early to be wanted. */
  lemma SkippedIsTooEarly(root: seq<Slot>, i: nat, from: nat)
    requires i < |root|
    ensures Skips(root, i, from) <==>
              if root[i].Tiles? then forall id: nat :: id < root[i].entry.End() ==> TooEarly(id, from)
              else i + 1 < |root| && forall id: nat :: id < root[i + 1].First() ==> TooEarly(id, from)
  {
    assert !TooEarly(from, from);
  }

  /** How many slots are come to before one that starts past the wanted ids. */
  function Visited(root: seq<Slot>, to: Limit, i: nat): (n: nat)
    requires i <= |root|
    ensures i <= n <= |root| && (n < |root| ==> !to.Allows(root[n].First()))
    ensures forall k :: i <= k < n ==> to.Allows(root[k].First())
    decreases |root| - i
  {
    if i < |root| && to.Allows(root[i].First()) then Visited(root, to, i + 1) else i
  }

  function ListedUpTo(root: seq<Slot>, n: nat, from: nat, to: Limit): seq<nat>
    requires n <= |root|
  {
    if n == 0 then []
    else
      var before := ListedUpTo(root, n - 1, from, to);
      if Skips(root, n - 1, from) then before else before + EntriesIds(root[n - 1].Entries(), from, to)
  }

  /** Every id that is listed, in the order it is. */
  function Listing(root: seq<Slot>, from: nat, to: Limit): seq<nat> {
    ListedUpTo(root, Visited(root, to, 0), from, to)
  }

  /** A leaf that would have to be read points at another. */
  ghost predicate Refuses(root: seq<Slot>, from: nat, to: Limit) {
    exists i :: 0 <= i < Visited(root, to, 0) && !Skips(root, i, from) && root[i].Nests()
  }

  /** What has been given out so far, after what was there before. */
  ghost predicate Given(chunks: seq<seq<nat>>, batch: seq<nat>, before: seq<nat>, ids: seq<nat>) {
    Flat(chunks) + batch == before + ids
  }

  lemma Regroups(a: seq<nat>, b: seq<nat>, c: seq<nat>)
    ensures a + b + c == a + (b + c)
  {
  }

  lemma GivenMore(chunks: seq<seq<nat>>, batch: seq<nat>, more: seq<seq<nat>>, rest: seq<nat>, before: seq<nat>,
                  ids: seq<nat>, run: seq<nat>)
    requires Given(chunks, batch, before, ids) && Flat(more) + rest == Flat(chunks) + batch + run
    ensures Given(more, rest, before, ids + run)
  {
    hide Flat;
    Regroups(before, ids, run);
  }

  lemma GivenNothing(chunks: seq<seq<nat>>, batch: seq<nat>)
    ensures Given(chunks, batch, Flat(chunks) + batch, []) && Given(chunks, [], Flat(chunks), [])
  {
    hide Flat;
    assert Flat(chunks) + batch + [] == Flat(chunks) + batch;
  }

  lemma GivenIs(chunks: seq<seq<nat>>, batch: seq<nat>, before: seq<nat>, ids: seq<nat>)
    requires Given(chunks, batch, before, ids)
    ensures Flat(chunks) + batch == before + ids
  {
  }

  lemma GivenAll(chunks: seq<seq<nat>>, batch: seq<nat>, before: seq<nat>, ids: seq<nat>)
    requires Given(chunks, batch, before, ids)
    ensures Flat(if |batch| > 0 then chunks + [batch] else chunks) == before + ids
  {
    FlatOfOneMore(chunks, batch);
    hide Flat;
    assert batch == [] ==> Flat(chunks) + batch == Flat(chunks);
  }

  lemma IdsOneMore(lo: nat, hi: nat)
    requires lo <= hi
    ensures Ids(lo, hi + 1) == Ids(lo, hi) + [hi] && Ids(lo, lo) == []
  {
  }

  lemma EmittedOne(done: seq<seq<nat>>, left: seq<nat>, chunks: seq<seq<nat>>, batch: seq<nat>, given: seq<nat>,
                   lo: nat, id: nat)
    requires Given(done, left, given, Ids(lo, id)) && lo <= id
    requires Flat(chunks) + batch == Flat(done) + left + [id]
    ensures Given(chunks, batch, given, Ids(lo, id + 1))
  {
    hide *;
    IdsOneMore(lo, id);
    GivenMore(done, left, chunks, batch, given, Ids(lo, id), [id]);
  }

  /** Where the wanted ones of a run begin and end, as steps into it. */
  lemma RunSteps(e: Entry, from: nat, to: Limit, first: nat, last: int)
    requires first == if from < e.tileId then 0 else from - e.tileId
    requires last == if to.Infinity? || e.runLength < to.id - e.tileId then e.runLength as int else to.id - e.tileId
    ensures RunIds(e, from, to) == if first < last then Ids(e.tileId + first, e.tileId + last) else []
  {
    hide Ids;
    NoIds(e.tileId + first, e.tileId + last);
  }

  lemma NoIds(lo: nat, hi: int)
    ensures hi <= lo ==> Ids(lo, hi) == []
  {
  }

  method ExpandRun(entry: Entry, from: nat, to: Limit, before: seq<seq<nat>>, pending: seq<nat>)
    returns (chunks: seq<seq<nat>>, batch: seq<nat>)
    requires Chunked(before) && |pending| < RUN_CHUNK
    ensures Flat(chunks) + batch == Flat(before) + pending + RunIds(entry, from, to)
    ensures Chunked(chunks) && |batch| < RUN_CHUNK
  {
    hide *;
    chunks, batch := before, pending;
    var first := if from < entry.tileId then 0 else from - entry.tileId;
    var last :=
      if to.Infinity? || entry.runLength < to.id - entry.tileId then entry.runLength as int
      else to.id - entry.tileId;
    var step := first;
    RunSteps(entry, from, to, first, last);
    ghost var given, lo := Flat(before) + pending, entry.tileId + first;
    GivenNothing(before, pending);
    IdsOneMore(lo, lo);
    while step < last
      invariant first <= step && (first < last ==> step <= last) && (last <= first ==> step == first)
      invariant Given(chunks, batch, given, Ids(lo, entry.tileId + step))
      invariant Chunked(chunks) && |batch| < RUN_CHUNK
    {
      ghost var done, left := chunks, batch;
      chunks, batch := Emit(chunks, batch, entry.tileId + step);
      EmittedOne(done, left, chunks, batch, given, lo, entry.tileId + step);
      step := step + 1;
    }
    GivenIs(chunks, batch, given, Ids(lo, entry.tileId + step));
  }

  lemma EntriesOneMore(entries: seq<Entry>, i: nat, from: nat, to: Limit)
    requires i < |entries|
    ensures EntriesIds(entries[..i + 1], from, to) == EntriesIds(entries[..i], from, to) + RunIds(entries[i], from, to)
  {
    assert entries[..i + 1][..i] == entries[..i];
    hide RunIds;
  }

  lemma AllChunked(chunks: seq<seq<nat>>, batch: seq<nat>)
    requires Chunked(chunks) && |batch| < RUN_CHUNK
    ensures 0 < |batch| ==> Chunked(chunks + [batch])
  {
  }

  /** One directory's runs. */
  method ExpandEntries(entries: seq<Entry>, from: nat, to: Limit, before: seq<seq<nat>>)
    returns (chunks: seq<seq<nat>>)
    requires Chunked(before)
    ensures Flat(chunks) == Flat(before) + EntriesIds(entries, from, to) && Chunked(chunks)
  {
    var batch: seq<nat> := [];
    chunks := before;
    assert EntriesIds(entries[..0], from, to) == [] && entries[..|entries|] == entries;
    hide *;
    ghost var given := Flat(before);
    GivenNothing(before, batch);
    for i := 0 to |entries|
      invariant Given(chunks, batch, given, EntriesIds(entries[..i], from, to))
      invariant Chunked(chunks) && |batch| < RUN_CHUNK
    {
      var more, rest := ExpandRun(entries[i], from, to, chunks, batch);
      EntriesOneMore(entries, i, from, to);
      GivenMore(chunks, batch, more, rest, given, EntriesIds(entries[..i], from, to), RunIds(entries[i], from, to));
      chunks, batch := more, rest;
    }
    AllChunked(chunks, batch);
    GivenAll(chunks, batch, given, EntriesIds(entries, from, to));
    if |batch| > 0 {
      chunks := chunks + [batch];
    }
  }

  ghost predicate AllWanted(wanted: iset<nat>, lo: nat, hi: nat) {
    forall id: nat :: lo <= id < hi ==> id in wanted
  }

  /** Ids all of which are wanted. */
  lemma {:induction false} IdsSwept(ids: seq<nat>, wanted: iset<nat>, lo: nat, hi: nat)
    requires Swept(ids, wanted, lo) && lo <= hi && AllWanted(wanted, lo, hi)
    ensures Swept(ids + Ids(lo, hi), wanted, hi)
  {
    if lo == hi {
      assert ids + [] == ids;
    } else {
      assert hi - 1 in wanted && AllWanted(wanted, lo, hi - 1);
      hide Swept, AllWanted;
      IdsSwept(ids, wanted, lo, hi - 1);
      SweptOne(ids + Ids(lo, hi - 1), wanted, hi - 1);
      assert ids + Ids(lo, hi) == ids + Ids(lo, hi - 1) + [hi - 1];
    }
  }

  /** What is wanted of a stretch of ids that are all held. */
  ghost predicate WantsRun(wanted: iset<nat>, lo: nat, hi: nat, from: nat, to: Limit) {
    forall id: nat :: lo <= id < hi ==> (id in wanted <==> from <= id && to.Allows(id))
  }

  /** Where the wanted ones of a run begin, and where they end. */
  function RunFrom(e: Entry, from: nat): nat {
    LaterOf(e.tileId, from)
  }

  function RunTo(e: Entry, to: Limit): int {
    if to.Infinity? then e.End() else EarlierOf(e.End(), to.id)
  }

  lemma RunParts(wanted: iset<nat>, e: Entry, from: nat, to: Limit)
    requires WantsRun(wanted, e.tileId, e.End(), from, to)
    ensures e.tileId <= RunFrom(e, from) && RunTo(e, to) <= e.End()
    ensures RunTo(e, to) <= RunFrom(e, from) ==> NoneWanted(wanted, e.tileId, e.End())
    ensures RunFrom(e, from) < RunTo(e, to) ==>
              && NoneWanted(wanted, e.tileId, RunFrom(e, from))
              && AllWanted(wanted, RunFrom(e, from), RunTo(e, to))
              && NoneWanted(wanted, RunTo(e, to), e.End())
  {
  }

  lemma RunSwept(ids: seq<nat>, wanted: iset<nat>, e: Entry, from: nat, to: Limit)
    requires Swept(ids, wanted, e.tileId) && WantsRun(wanted, e.tileId, e.End(), from, to)
    ensures Swept(ids + RunIds(e, from, to), wanted, e.End())
  {
    RunParts(wanted, e, from, to);
    var lo, hi := RunFrom(e, from), RunTo(e, to);
    assert RunIds(e, from, to) == Ids(lo, hi) && e.tileId <= e.End();
    hide *;
    if hi <= lo {
      SweptPast(ids, wanted, e.tileId, e.End());
      NoIds(lo, hi);
      assert ids + [] == ids;
    } else {
      SweptPast(ids, wanted, e.tileId, lo);
      IdsSwept(ids, wanted, lo, hi);
      SweptPast(ids + Ids(lo, hi), wanted, hi, e.End());
    }
  }

  ghost predicate Within(entries: seq<Entry>, start: nat, end: nat) {
    forall e :: e in entries ==> start <= e.tileId && e.End() <= end
  }

  /** What is wanted of a stretch of ids that a directory may hold. */
  ghost predicate WantsHeld(wanted: iset<nat>, entries: seq<Entry>, start: nat, end: nat, from: nat, to: Limit) {
    forall id: nat :: start <= id < end ==> (id in wanted <==> Holds(entries, id) && from <= id && to.Allows(id))
  }

  /** Where the first so many runs end. */
  function EndOfRuns(entries: seq<Entry>, n: nat, start: nat): nat
    requires n <= |entries|
  {
    if n == 0 then start else entries[n - 1].End()
  }

  lemma RunIsWanted(entries: seq<Entry>, n: nat, wanted: iset<nat>, start: nat, end: nat, from: nat, to: Limit)
    requires n < |entries| && Within(entries, start, end) && WantsHeld(wanted, entries, start, end, from, to)
    ensures WantsRun(wanted, entries[n].tileId, entries[n].End(), from, to)
  {
    var e := entries[n];
    assert e in entries;
    forall id: nat | e.tileId <= id < e.End()
      ensures Holds(entries, id)
    {
    }
    hide Holds;
  }

  /** Between one run and the next nothing is held, nor after the last. */
  lemma NothingBetweenRuns(entries: seq<Entry>, i: nat, wanted: iset<nat>, start: nat, end: nat, from: nat, to: Limit)
    requires i <= |entries| && start <= end && RunsFollow(entries) && Within(entries, start, end)
    requires WantsHeld(wanted, entries, start, end, from, to)
    ensures var lo, hi := EndOfRuns(entries, i, start), if i == |entries| then end else entries[i].tileId;
            start <= lo <= hi <= end && NoneWanted(wanted, lo, hi)
  {
    var lo, hi := EndOfRuns(entries, i, start), if i == |entries| then end else entries[i].tileId;
    assert i < |entries| ==> entries[i] in entries;
    assert i > 0 ==> entries[i - 1] in entries;
    forall id: nat | lo <= id < hi
      ensures !Holds(entries, id)
    {
      NotHeldBetween(entries, i, id);
    }
    hide Holds, RunsFollow;
  }

  lemma NotHeldBetween(entries: seq<Entry>, i: nat, id: nat)
    requires i <= |entries| && RunsFollow(entries)
    requires (i > 0 ==> entries[i - 1].End() <= id) && (i < |entries| ==> id < entries[i].tileId)
    ensures !Holds(entries, id)
  {
    forall e | e in entries
      ensures !(e.tileId <= id < e.End())
    {
      var k :| 0 <= k < |entries| && entries[k] == e;
    }
  }

  /** Where the runs of a directory follow one another, they sweep it. */
  lemma {:induction false} EntriesSwept(ids: seq<nat>, entries: seq<Entry>, n: nat, from: nat, to: Limit,
                                        wanted: iset<nat>, start: nat, end: nat)
    requires Swept(ids, wanted, start) && start <= end && n <= |entries|
    requires RunsFollow(entries) && Within(entries, start, end) && WantsHeld(wanted, entries, start, end, from, to)
    ensures Swept(ids + EntriesIds(entries[..n], from, to), wanted, EndOfRuns(entries, n, start))
  {
    if n == 0 {
      assert ids + [] == ids;
    } else {
      var e, before := entries[n - 1], EntriesIds(entries[..n - 1], from, to);
      assert EndOfRuns(entries, n, start) == e.End();
      hide *;
      EntriesSwept(ids, entries, n - 1, from, to, wanted, start, end);
      NothingBetweenRuns(entries, n - 1, wanted, start, end, from, to);
      RunIsWanted(entries, n - 1, wanted, start, end, from, to);
      SweptPast(ids + before, wanted, EndOfRuns(entries, n - 1, start), e.tileId);
      RunSwept(ids + before, wanted, e, from, to);
      EntriesOneMore(entries, n - 1, from, to);
      Regroups(ids, before, RunIds(e, from, to));
    }
  }

  lemma DirectorySwept(ids: seq<nat>, entries: seq<Entry>, from: nat, to: Limit, wanted: iset<nat>, start: nat,
                       end: nat)
    requires Swept(ids, wanted, start) && start <= end
    requires RunsFollow(entries) && Within(entries, start, end) && WantsHeld(wanted, entries, start, end, from, to)
    ensures Swept(ids + EntriesIds(entries, from, to), wanted, end)
  {
    hide *;
    var n := |entries|;
    EntriesSwept(ids, entries, n, from, to, wanted, start, end);
    NothingBetweenRuns(entries, n, wanted, start, end, from, to);
    assert entries[..n] == entries;
    SweptPast(ids + EntriesIds(entries, from, to), wanted, EndOfRuns(entries, n, start), end);
  }

  /** Where a slot's ids end: where the next slot begins, if there is one. */
  ghost predicate EndsSlot(root: seq<Slot>, i: nat, end: nat)
    requires i < |root|
  {
    && root[i].First() <= end
    && (forall e :: e in root[i].Entries() ==> e.End() <= end)
    && (i + 1 < |root| ==> end == root[i + 1].First())
  }

  lemma SlotsAscend(root: seq<Slot>, i: nat, k: nat)
    requires InOrder(root) && i <= k < |root|
    ensures root[i].First() <= root[k].First()
  {
  }

  lemma EarlierSlotsEnd(root: seq<Slot>, k: nat, i: nat, e: Entry)
    requires InOrder(root) && k < |root| && i < |root| && e in root[k].Entries()
    ensures k < i ==> e.End() <= root[i].First()
    ensures i < k && i + 1 < |root| ==> root[i + 1].First() <= e.tileId
  {
    if k < i {
      SlotsAscend(root, k + 1, i);
    }
    if i < k {
      SlotsAscend(root, i + 1, k);
    }
  }

  lemma RunIsOfItsSlot(root: seq<Slot>, i: nat, end: nat, k: nat, e: Entry, id: nat)
    requires InOrder(root) && i < |root| && EndsSlot(root, i, end) && root[i].First() <= id < end
    requires k < |root| && e in root[k].Entries() && e.tileId <= id < e.End()
    ensures k == i
  {
    EarlierSlotsEnd(root, k, i, e);
    hide InOrder;
  }

  lemma SlotHoldsItsIds(root: seq<Slot>, i: nat, end: nat, id: nat)
    requires InOrder(root) && i < |root| && EndsSlot(root, i, end) && root[i].First() <= id < end
    ensures Stored(root, id) <==> Holds(root[i].Entries(), id)
  {
    if Stored(root, id) {
      var k :| 0 <= k < |root| && Holds(root[k].Entries(), id);
      var e :| e in root[k].Entries() && e.tileId <= id < e.End();
      hide InOrder, EndsSlot, Slot.First, Slot.Entries;
      RunIsOfItsSlot(root, i, end, k, e, id);
    }
  }

  ghost function SlotEnd(root: seq<Slot>, i: nat): (end: nat)
    requires InOrder(root) && i < |root|
    ensures EndsSlot(root, i, end)
  {
    if i + 1 < |root| then root[i + 1].First()
    else LastEnd(root[i].Entries(), root[i].First())
  }

  ghost function LastEnd(entries: seq<Entry>, atLeast: nat): (end: nat)
    ensures atLeast <= end && forall e :: e in entries ==> e.End() <= end
  {
    if entries == [] then atLeast
    else
      var n := |entries| - 1;
      assert entries == entries[..n] + [entries[n]];
      var rest := LastEnd(entries[..n], atLeast);
      if rest < entries[n].End() then entries[n].End() else rest
  }

  lemma LaterSlotsEnd(root: seq<Slot>, k: nat)
    requires InOrder(root) && k < |root|
    ensures SlotEnd(root, k) <= SlotEnd(root, |root| - 1)
  {
    if k + 1 < |root| {
      SlotsAscend(root, k + 1, |root| - 1);
      assert EndsSlot(root, |root| - 1, SlotEnd(root, |root| - 1));
    }
  }

  lemma RunEndsInItsSlot(root: seq<Slot>, k: nat, e: Entry)
    requires InOrder(root) && k < |root| && e in root[k].Entries()
    ensures root[k].First() <= e.tileId && e.End() <= SlotEnd(root, k)
  {
    assert EndsSlot(root, k, SlotEnd(root, k));
    hide SlotEnd;
  }

  /** Everything stored lies between where the first slot begins and where the last one ends. */
  lemma StoredIsWithin(root: seq<Slot>, id: nat)
    requires InOrder(root) && Stored(root, id)
    ensures root != [] && root[0].First() <= id < SlotEnd(root, |root| - 1)
  {
    hide InOrder, EndsSlot, SlotEnd, Slot.First, Slot.Entries;
    var k :| 0 <= k < |root| && Holds(root[k].Entries(), id);
    var e :| e in root[k].Entries() && e.tileId <= id < e.End();
    SlotsAscend(root, 0, k);
    RunEndsInItsSlot(root, k, e);
    LaterSlotsEnd(root, k);
  }

  lemma NothingBefore(root: seq<Slot>, from: nat, to: Limit)
    requires InOrder(root)
    ensures Swept([], WantedIds(root, from, to), EndOfSlots(root, 0))
  {
    forall id: nat | id in WantedIds(root, from, to)
      ensures root != [] && root[0].First() <= id
    {
      StoredIsWithin(root, id);
    }
  }

  lemma NothingAfter(root: seq<Slot>, from: nat, to: Limit, i: nat)
    requires InOrder(root) && i <= |root|
    requires i < |root| ==> !to.Allows(root[i].First())
    ensures forall id: nat :: EndOfSlots(root, i) <= id ==> id !in WantedIds(root, from, to)
  {
    forall id: nat | id in WantedIds(root, from, to)
      ensures id < EndOfSlots(root, i)
    {
      hide InOrder, SlotEnd, Slot.First, Stored;
      StoredIsWithin(root, id);
    }
  }

  lemma SlotWants(root: seq<Slot>, i: nat, from: nat, to: Limit)
    requires InOrder(root) && i < |root|
    ensures WantsHeld(WantedIds(root, from, to), root[i].Entries(), root[i].First(), SlotEnd(root, i), from, to)
  {
    forall id: nat | root[i].First() <= id < SlotEnd(root, i)
      ensures Stored(root, id) <==> Holds(root[i].Entries(), id)
    {
      SlotHoldsItsIds(root, i, SlotEnd(root, i), id);
    }
  }

  lemma SlotIsWithin(root: seq<Slot>, i: nat)
    requires InOrder(root) && i < |root|
    ensures Within(root[i].Entries(), root[i].First(), SlotEnd(root, i)) && RunsFollow(root[i].Entries())
    ensures root[i].First() <= SlotEnd(root, i)
  {
    assert EndsSlot(root, i, SlotEnd(root, i));
    hide SlotEnd;
  }

  lemma SkippedIsUnwanted(root: seq<Slot>, i: nat, from: nat, to: Limit)
    requires InOrder(root) && i < |root| && Skips(root, i, from)
    ensures NoneWanted(WantedIds(root, from, to), root[i].First(), SlotEnd(root, i))
  {
    SlotWants(root, i, from, to);
    SkippedHoldsNothing(root, i, from);
    hide WantedIds, Skips, InOrder, SlotEnd, Holds;
  }

  /** One slot more. */
  lemma SlotSwept(root: seq<Slot>, i: nat, from: nat, to: Limit, ids: seq<nat>)
    requires InOrder(root) && i < |root| && Swept(ids, WantedIds(root, from, to), root[i].First())
    ensures Skips(root, i, from) ==> Swept(ids, WantedIds(root, from, to), SlotEnd(root, i))
    ensures Swept(ids + EntriesIds(root[i].Entries(), from, to), WantedIds(root, from, to), SlotEnd(root, i))
  {
    hide *;
    var wanted, start, end := WantedIds(root, from, to), root[i].First(), SlotEnd(root, i);
    SlotWants(root, i, from, to);
    SlotIsWithin(root, i);
    if Skips(root, i, from) {
      SkippedIsUnwanted(root, i, from, to);
      SweptPast(ids, wanted, start, end);
    }
    DirectorySwept(ids, root[i].Entries(), from, to, wanted, start, end);
  }

  /** Where the first so many slots end. */
  ghost function EndOfSlots(root: seq<Slot>, n: nat): (end: nat)
    requires InOrder(root) && n <= |root|
    ensures n < |root| ==> end == root[n].First()
  {
    if root == [] then 0
    else if n == 0 then root[0].First()
    else
      assert EndsSlot(root, n - 1, SlotEnd(root, n - 1));
      SlotEnd(root, n - 1)
  }

  lemma {:induction false} ListedIsSwept(root: seq<Slot>, n: nat, from: nat, to: Limit)
    requires InOrder(root) && n <= |root|
    ensures Swept(ListedUpTo(root, n, from, to), WantedIds(root, from, to), EndOfSlots(root, n))
  {
    hide Swept, WantedIds, InOrder, EntriesIds, SlotEnd, Slot.First, Slot.Entries, Skips;
    if n == 0 {
      NothingBefore(root, from, to);
    } else {
      ListedIsSwept(root, n - 1, from, to);
      SlotSwept(root, n - 1, from, to, ListedUpTo(root, n - 1, from, to));
    }
  }

  /** Of an archive laid out in order, what is listed is what is stored in the run, ascending. */
  lemma ListingIsExact(root: seq<Slot>, from: nat, to: Limit)
    requires InOrder(root)
    ensures Climbs(Listing(root, from, to))
    ensures forall id: nat :: id in Listing(root, from, to) <==> Stored(root, id) && from <= id && to.Allows(id)
  {
    var n := Visited(root, to, 0);
    ListedIsSwept(root, n, from, to);
    NothingAfter(root, from, to, n);
    hide Swept, WantedIds, InOrder, ListedUpTo, EndOfSlots;
    SweptIsAll(Listing(root, from, to), WantedIds(root, from, to), EndOfSlots(root, n));
    IsWanted(root, from, to);
  }

  /**
   Every id an archive stores in a run, in chunks: a leaf directory wholly outside
   the run is never read, and a run of tiles is entered where the wanted ids begin.
   A directory that nests is refused, if it would have to be read, rather than
   dropped.
   */
  method ScanTileIds(root: seq<Slot>, from: nat, to: Limit) returns (r: Option<seq<seq<nat>>>)
    ensures r.None? <==> Refuses(root, from, to)
    ensures r.Some? ==> Chunked(r.value) && Flat(r.value) == Listing(root, from, to)
  {
    var chunks: seq<seq<nat>> := [];
    ghost var n := Visited(root, to, 0);
    hide *;
    NoChunks(root, from, to);
    for i := 0 to |root|
      invariant i <= n && Chunked(chunks) && Flat(chunks) == ListedUpTo(root, i, from, to)
      invariant NoneNests(root, from, i)
    {
      ListedOneMore(root, i, from, to);
      if !to.Allows(root[i].First()) {
        VisitedEnds(root, from, to, i);
        return Some(chunks);
      }
      VisitedGoesOn(root, to, i);
      if !Skips(root, i, from) {
        if root[i].Nests() {
          NestsInTheWay(root, from, to, i);
          return None;
        }
        chunks := ExpandEntries(root[i].Entries(), from, to, chunks);
      }
      NoneNestsYet(root, from, i);
    }
    VisitedEnds(root, from, to, |root|);
    r := Some(chunks);
  }

  /** None of the first so many slots that would be read nests. */
  ghost predicate NoneNests(root: seq<Slot>, from: nat, n: nat)
    requires n <= |root|
  {
    forall k :: 0 <= k < n && !Skips(root, k, from) ==> !root[k].Nests()
  }

  lemma NoneNestsYet(root: seq<Slot>, from: nat, i: nat)
    requires i < |root| && NoneNests(root, from, i) && (Skips(root, i, from) || !root[i].Nests())
    ensures NoneNests(root, from, i + 1)
  {
  }

  lemma NestsInTheWay(root: seq<Slot>, from: nat, to: Limit, i: nat)
    requires i < Visited(root, to, 0) && !Skips(root, i, from) && root[i].Nests()
    ensures Refuses(root, from, to)
  {
    hide Slot.Nests, Skips, Visited;
  }

  lemma VisitedGoesOn(root: seq<Slot>, to: Limit, i: nat)
    requires i < |root| && i <= Visited(root, to, 0) && to.Allows(root[i].First())
    ensures i < Visited(root, to, 0)
  {
    hide Slot.First, Visited;
  }

  lemma VisitedEnds(root: seq<Slot>, from: nat, to: Limit, i: nat)
    requires i <= |root| && i <= Visited(root, to, 0) && (i < |root| ==> !to.Allows(root[i].First()))
    requires NoneNests(root, from, i)
    ensures Visited(root, to, 0) == i && !Refuses(root, from, to)
    ensures Listing(root, from, to) == ListedUpTo(root, i, from, to)
  {
    hide Slot.First, Slot.Nests, Skips, Visited, ListedUpTo;
  }

  lemma ListedOneMore(root: seq<Slot>, i: nat, from: nat, to: Limit)
    requires i < |root|
    ensures ListedUpTo(root, i + 1, from, to) ==
            if Skips(root, i, from) then ListedUpTo(root, i, from, to)
            else ListedUpTo(root, i, from, to) + EntriesIds(root[i].Entries(), from, to)
  {
    hide Skips, EntriesIds, Slot.Entries;
  }

  lemma NoChunks(root: seq<Slot>, from: nat, to: Limit)
    ensures Chunked([]) && Flat([]) == ListedUpTo(root, 0, from, to) && NoneNests(root, from, 0)
  {
  }

  lemma IsWanted(root: seq<Slot>, from: nat, to: Limit)
    ensures forall id: nat :: id in WantedIds(root, from, to) <==> Stored(root, id) && from <= id && to.Allows(id)
  {
  }

  lemma SweptIsAll(ids: seq<nat>, wanted: iset<nat>, bound: nat)
    requires Swept(ids, wanted, bound) && forall id: nat :: bound <= id ==> id !in wanted
    ensures Climbs(ids) && forall id: nat :: id in ids <==> id in wanted
  {
  }

  /** A slot that is passed over ends before the run begins. */
  lemma SkippedHoldsNothing(root: seq<Slot>, i: nat, from: nat)
    requires InOrder(root) && i < |root| && Skips(root, i, from)
    ensures forall id: nat :: Holds(root[i].Entries(), id) ==> id < from
  {
    forall id: nat | Holds(root[i].Entries(), id)
      ensures id < from
    {
      var e :| e in root[i].Entries() && e.tileId <= id < e.End();
    }
  }

  lemma {:induction false} IdsAre(lo: nat, hi: int, id: nat)
    ensures id in Ids(lo, hi) <==> lo <= id < hi
    decreases hi - lo
  {
    if lo < hi {
      IdsAre(lo, hi - 1, id);
    }
  }

  /** All that is listed of a directory is what its runs hold. */
  lemma {:induction false} EntriesIdsAre(entries: seq<Entry>, id: nat)
    ensures id in EntriesIds(entries, 0, Infinity) <==> Holds(entries, id)
  {
    if entries != [] {
      var n := |entries| - 1;
      var last := entries[n];
      EntriesIdsAre(entries[..n], id);
      IdsAre(last.tileId, last.End(), id);
      assert entries == entries[..n] + [last];
      hide Ids, EntriesIds;
    }
  }

  lemma {:induction false} EntriesIdsAdd(a: seq<Entry>, b: seq<Entry>)
    ensures EntriesIds(a + b, 0, Infinity) == EntriesIds(a, 0, Infinity) + EntriesIds(b, 0, Infinity)
  {
    if b == [] {
      assert a + b == a;
    } else {
      EntriesIdsAdd(a, b[..|b| - 1]);
      assert (a + b)[..|a + b| - 1] == a + b[..|b| - 1];
      hide RunIds;
    }
  }

  /** What climbs says nothing twice. */
  lemma ClimbsOnce(a: seq<nat>, b: seq<nat>, id: nat)
    requires id in a && id in b
    ensures !Climbs(a + b)
  {
    var i :| 0 <= i < |a| && a[i] == id;
    var j :| 0 <= j < |b| && b[j] == id;
    assert (a + b)[i] == (a + b)[|a| + j];
  }

  /** A directory of one leaf lists what the leaf does. */
  lemma LeafListing(entries: seq<Entry>)
    ensures Listing([Leaf(0, entries)], 0, Infinity) == EntriesIds(entries, 0, Infinity)
  {
    var root := [Leaf(0, entries)];
    assert Visited(root, Infinity, 1) == 1 && Visited(root, Infinity, 0) == 1;
    assert ListedUpTo(root, 0, 0, Infinity) == [] && !Skips(root, 0, 0);
    hide EntriesIds;
  }

  lemma OneEachWay(entries: seq<Entry>, i: nat, j: nat)
    requires i < j < |entries| && entries[i].tileId <= entries[j].tileId < entries[i].End()
    requires 0 < entries[j].runLength
    ensures Holds(entries[..j], entries[j].tileId) && Holds(entries[j..], entries[j].tileId)
  {
    assert entries[..j][i] == entries[i] && entries[j..][0] == entries[j];
  }

  /** Where one run reaches into a later one, what they share is listed twice. */
  lemma ReachingInIsListedTwice(entries: seq<Entry>, i: nat, j: nat)
    requires i < j < |entries| && entries[i].tileId <= entries[j].tileId < entries[i].End()
    requires 0 < entries[j].runLength
    ensures !Climbs(EntriesIds(entries, 0, Infinity))
  {
    var id, a, b := entries[j].tileId, entries[..j], entries[j..];
    assert a + b == entries;
    OneEachWay(entries, i, j);
    hide *;
    EntriesIdsAdd(a, b);
    EntriesIdsAre(a, id);
    EntriesIdsAre(b, id);
    ClimbsOnce(EntriesIds(a, 0, Infinity), EntriesIds(b, 0, Infinity), id);
  }

  lemma LeafInOrder(entries: seq<Entry>)
    requires RunsFollow(entries)
    ensures InOrder([Leaf(0, entries)])
  {
  }

  /**
   A directory whose runs reach into one another, as one does of an archive whose
   bake was killed half way into a checkpoint, is not listed in order: it is,
   exactly where each run ends before the next begins.
   */
  lemma ListedInOrderIff(entries: seq<Entry>)
    requires forall i, j :: 0 <= i < j < |entries| ==> entries[i].tileId < entries[j].tileId
    requires forall i :: 0 <= i < |entries| ==> 0 < entries[i].runLength
    ensures Climbs(Listing([Leaf(0, entries)], 0, Infinity)) <==> RunsFollow(entries)
  {
    LeafListing(entries);
    hide Climbs, Listing, EntriesIds, InOrder;
    if RunsFollow(entries) {
      LeafInOrder(entries);
      hide *;
      ListingIsExact([Leaf(0, entries)], 0, Infinity);
    } else {
      var i, j :| 0 <= i < j < |entries| && entries[j].tileId < entries[i].End();
      ReachingInIsListedTwice(entries, i, j);
    }
  }
}
