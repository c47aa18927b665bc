/** Building a PMTiles archive one tile at a time, over a file that buffers the tiles' bytes. */
module Writer {
  import opened Archive
  import opened Sorting

  /** A file on disk. */
  class File {
    var bytes: Bytes

    constructor ()
      ensures bytes == []
    {
      bytes := [];
    }

    /** Writes data at a position, over what is there and past the end. */
    method Write(data: Bytes, at: nat)
      requires at <= |bytes|
      modifies this
      ensures bytes == Overwrite(old(bytes), at, data)
    {
      bytes := bytes[..at] + data + if at + |data| <= |bytes| then bytes[at + |data|..] else [];
    }
  }

  /** A finished archive: its entries in id order, its tile data, and what its header counts. */
  datatype PMTiles = PMTiles(entries: seq<Entry>, data: Bytes, addressed: nat, clustered: bool) {
    ghost predicate Valid() {
      AllWithin(entries, |data|)
    }

    ghost function Tiles(): seq<Tile>
      requires Valid()
    {
      TilesOf(entries, data)
    }
  }

  predicate EarlierEntry(a: Entry, b: Entry) {
    a.tileId <= b.tileId
  }

  class PMTilesWriter {
    const handle: File
    var entries: seq<Entry>
    var seen: Option<map<Bytes, nat>>
    var offset: nat
    var addressed: nat
    var clustered: bool
    var lastId: int

    ghost predicate Valid()
      reads this, handle
    {
      State().Sound()
    }

    ghost function State(): Draft
      reads this, handle
    {
      Draft(entries, seen, handle.bytes, offset, addressed, clustered, lastId)
    }

    /** Starts an archive over an empty file. */
    constructor Open(file: File, deduplicate: bool)
      modifies file
      ensures Valid() && handle == file
      ensures State() == Draft([], if deduplicate then Some(map[]) else None, [], 0, 0, true, -1)
    {
      handle := file;
      entries, offset, addressed, clustered, lastId := [], 0, 0, true, -1;
      seen := if deduplicate then Some(map[]) else None;
      new;
      file.bytes := [];
    }

    /** Carries on with a half-written archive. What was seen before is deliberately forgotten. */
    constructor Reopen(file: File, entries: seq<Entry>, dataBytes: nat, addressed: nat, clustered: bool,
                       deduplicate: bool)
      requires dataBytes <= |file.bytes| && AllWithin(entries, dataBytes)
      ensures Valid() && handle == file
      ensures State() ==
              Draft(entries, if deduplicate then Some(map[]) else None, file.bytes, dataBytes, addressed, clustered,
                               if entries == [] then -1 else entries[|entries| - 1].End() - 1)
    {
      handle := file;
      this.entries, offset, this.addressed, this.clustered := entries, dataBytes, addressed, clustered;
      seen := if deduplicate then Some(map[]) else None;
      lastId := if |entries| > 0 then entries[|entries| - 1].tileId + entries[|entries| - 1].runLength - 1 else -1;
    }

    /** Adds one tile. Tiles out of order are still written, but the archive is no longer clustered. */
    method WriteTile(tileId: nat, data: Bytes)
      requires Valid()
      modifies this, handle
      ensures Valid()
      ensures State() == old(State()).Written(tileId, data)
    {
      assert offset <= |handle.bytes|;
      WritingAppends(State(), tileId, data);
      hide Draft.Sound, Draft.Tiles, Draft.Confuses, TilesOf;
      Offer(tileId);
      if seen.Some? && data in seen.value {
        Point(tileId, seen.value[data], |data|);
      } else {
        Store(tileId, data);
      }
    }

    /** One tile more, in order or not. */
    method Offer(tileId: nat)
      modifies this`clustered, this`lastId, this`addressed
      ensures State() == old(State()).Offered(tileId)
    {
      if tileId <= lastId {
        clustered := false;
      }
      lastId := tileId;
      addressed := addressed + 1;
    }

    /**
     Bytes stored already: the last run one longer where the tile carries it on, and otherwise an entry
     of its own.
     */
    method Point(tileId: nat, found: nat, length: nat)
      requires offset <= |handle.bytes|
      modifies this
      ensures State() == if old(entries) != [] && old(entries)[|old(entries)| - 1].offset == found &&
              tileId == old(entries)[|old(entries)| - 1].End()
                         then old(State()).Lengthened() else old(State()).Pointed(tileId, found, length)
    {
      var n := |entries|;
      if n > 0 && entries[n - 1].offset == found && tileId == entries[n - 1].tileId + entries[n - 1].runLength {
        entries := entries[n - 1 := entries[n - 1].(runLength := entries[n - 1].runLength + 1)];
      } else {
        entries := entries + [Entry(tileId, found, length, 1)];
      }
    }

    /** Bytes not seen before, buffered after all the others. */
    method Store(tileId: nat, data: Bytes)
      requires offset <= |handle.bytes|
      modifies this, handle
      ensures State() == old(State()).Stored(data).Pointed(tileId, old(offset), |data|)
    {
      handle.Write(data, offset);
      entries := entries + [Entry(tileId, offset, |data|, 1)];
      if seen.Some? {
        seen := Some(seen.value[data := offset]);
      }
      offset := offset + |data|;
    }

    /** Adds a run of consecutive tiles that all hold the same bytes, or refuses an empty one. */
    method WriteTiles(tileId: nat, count: nat, data: Bytes) returns (ok: bool)
      requires Valid()
      modifies this, handle
      ensures Valid() && ok == (count >= 1)
      ensures State() == if ok then WrittenRun(old(State()), tileId, count, data) else old(State())
    {
      if count < 1 {
        return false;
      }
      ghost var before := State();
      RunAppends(before, tileId, count, data);
      WriteTile(tileId, data);
      if count == 1 {
        return true;
      }
      var n := |entries|;
      entries := entries[n - 1 := entries[n - 1].(runLength := entries[n - 1].runLength + (count - 1))];
      addressed := addressed + (count - 1);
      lastId := tileId + count - 1;
      return true;
    }

    /** The finished archive, or nothing where there is no tile to put in one. */
    method Finalize() returns (archive: Option<PMTiles>)
      requires Valid()
      ensures archive.None? <==> entries == []
      ensures archive.Some? ==>
              archive.value.Valid() && archive.value.addressed == addressed && archive.value.clustered == clustered
      ensures archive.Some? ==>
              archive.value.data == handle.bytes[..offset] && multiset(archive.value.entries) == multiset(entries)
      ensures archive.Some? && Ascends(entries, EarlierEntry) ==>
              archive.value.entries == entries && archive.value.Tiles() == State().Tiles()
    {
      if |entries| == 0 {
        return None;
      }
      var sorted := Sort(entries, EarlierEntry);
      var data := handle.bytes[..offset];
      SortHolds(entries, EarlierEntry);
      forall i | 0 <= i < |sorted|
        ensures sorted[i].Within(offset)
      {
        SortHasTheSame(entries, EarlierEntry, sorted[i]);
        assert sorted[i] in sorted;
      }
      archive := Some(PMTiles(sorted, data, addressed, clustered));
      if Ascends(entries, EarlierEntry) {
        SortingAscending(entries);
        TilesKeep(entries, handle.bytes, data, offset);
      }
    }
  }

  lemma {:induction false} SortingAscending(entries: seq<Entry>)
    requires Ascends(entries, EarlierEntry)
    ensures Sort(entries, EarlierEntry) == entries
  {
    if entries != [] {
      SortingAscending(entries[..|entries| - 1]);
      if |entries| > 1 {
        assert EarlierEntry(entries[|entries| - 2], entries[|entries| - 1]);
      }
    }
  }

  /** A draft after a run of tiles. */
  ghost function WrittenRun(a: Draft, tileId: nat, count: nat, data: Bytes): Draft
    requires a.Sound() && count >= 1
  {
    var w := a.Written(tileId, data);
    var n := |w.entries| - 1;
    var last := w.entries[n];
    if count == 1 then w
    else w.(entries := w.entries[n := last.(runLength := last.runLength + (count - 1))],
            addressed := w.addressed + (count - 1), lastId := tileId + count - 1)
  }

  /** A longer run is the shorter one with its last entry lengthened. */
  lemma LongerRun(a: Draft, tileId: nat, count: nat, data: Bytes)
    requires a.Sound() && count >= 2
    ensures var b, w := WrittenRun(a, tileId, count - 1, data), WrittenRun(a, tileId, count, data);
            && b.entries != [] && w.entries == b.Lengthened().entries
            && w.bytes == b.bytes && w.dataBytes == b.dataBytes && w.seen == b.seen
            && w.entries[|w.entries| - 1].offset == b.entries[|b.entries| - 1].offset
            && w.entries[|w.entries| - 1].length == b.entries[|b.entries| - 1].length
            && w.entries[|w.entries| - 1].runLength == b.entries[|b.entries| - 1].runLength + 1
  {
    WrittenHasAnEntry(a, tileId, data);
    hide Draft.Sound, Draft.Written;
  }

  lemma WrittenHasAnEntry(a: Draft, tileId: nat, data: Bytes)
    requires a.Sound()
    ensures a.Written(tileId, data).entries != []
  {
  }

  ghost predicate HoldsRun(a: Draft, w: Draft, tileId: nat, count: nat, data: Bytes)
    requires a.Sound()
  {
    && w.Sound() && w.entries != [] && w.entries[|w.entries| - 1].End() == tileId + count
    && (!a.Confuses(tileId, data) ==>
          w.Tiles() == a.Tiles() + Run(tileId, count, data) && w.entries[|w.entries| - 1].Data(w.bytes) == data)
  }

  lemma RunOfOne(a: Draft, tileId: nat, data: Bytes)
    requires a.Sound()
    ensures HoldsRun(a, a.Written(tileId, data), tileId, 1, data)
  {
    WritingAppends(a, tileId, data);
    WrittenHasAnEntry(a, tileId, data);
    assert Run(tileId, 1, data) == [Tile(tileId, data)];
    if !a.Confuses(tileId, data) {
      LastHolds(a, tileId, data);
    }
    hide Draft.Sound, Draft.Tiles, TilesOf, Draft.Confuses;
  }

  lemma RunOfOneMore(a: Draft, b: Draft, tileId: nat, count: nat, data: Bytes)
    requires a.Sound() && HoldsRun(a, b, tileId, count, data)
    ensures HoldsRun(a, b.Lengthened(), tileId, count + 1, data)
  {
    LengtheningAppends(b);
    hide Draft.Sound, Draft.Confuses, Draft.Tiles;
    assert Run(tileId, count + 1, data) == Run(tileId, count, data) + [Tile(tileId + count, data)];
    assert a.Tiles() + (Run(tileId, count, data) + [Tile(tileId + count, data)]) ==
           (a.Tiles() + Run(tileId, count, data)) + [Tile(tileId + count, data)];
  }

  /** Writing a run of tiles at once writes what writing them one by one would have. */
  lemma {:induction false} RunAppends(a: Draft, tileId: nat, count: nat, data: Bytes)
    requires a.Sound() && count >= 1
    ensures HoldsRun(a, WrittenRun(a, tileId, count, data), tileId, count, data)
  {
    if count == 1 {
      RunOfOne(a, tileId, data);
    } else {
      var b := WrittenRun(a, tileId, count - 1, data);
      RunAppends(a, tileId, count - 1, data);
      RunOfOneMore(a, b, tileId, count - 1, data);
      LongerRun(a, tileId, count, data);
      SameDraftSameTiles(b.Lengthened(), WrittenRun(a, tileId, count, data));
    }
  }

  lemma SameDraftSameTiles(a: Draft, b: Draft)
    requires a.Sound() && a.entries == b.entries && a.seen == b.seen && a.bytes == b.bytes && a.dataBytes == b.dataBytes
    ensures b.Sound() && b.Tiles() == a.Tiles()
  {
  }

  lemma LastHolds(a: Draft, tileId: nat, data: Bytes)
    requires a.Sound() && !a.Confuses(tileId, data)
    ensures a.Written(tileId, data).Sound()
    ensures var w := a.Written(tileId, data); w.entries[|w.entries| - 1].Data(w.bytes) == data
  {
    WritingAppends(a, tileId, data);
    if a.CarriesOn(tileId, data) {
      LastOfRun(a, tileId, data);
    } else if a.Known(data) {
      KnownIsKept(a, data);
    }
  }
}
