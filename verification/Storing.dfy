/**
 What deduplicating comes to: a tile that is stored is pointed at again and not stored twice; and without it
 every tile has an entry and bytes of its own.
 */
module Storing {
  import opened Archive
  import opened Writer

  /** An entry's tile is known to be where the entry says. */
  ghost predicate KnownAs(seen: map<Bytes, nat>, e: Entry, bytes: Bytes) {
    e.Within(|bytes|) && e.Data(bytes) in seen && seen[e.Data(bytes)] == e.offset
  }

  ghost predicate AllKnown(seen: map<Bytes, nat>, entries: seq<Entry>, bytes: Bytes) {
    forall i :: 0 <= i < |entries| ==> KnownAs(seen, entries[i], bytes)
  }

  ghost predicate EachKnown(a: Draft) {
    a.seen.Some? && AllKnown(a.seen.value, a.entries, a.bytes)
  }

  lemma KnownLengthened(a: Draft)
    requires a.entries != [] && EachKnown(a)
    ensures EachKnown(a.Lengthened())
  {
    var n := |a.entries| - 1;
    assert KnownAs(a.seen.value, a.entries[n], a.bytes);
  }

  lemma KnownPointed(a: Draft, id: nat, data: Bytes)
    requires a.Sound() && EachKnown(a) && a.Known(data)
    ensures EachKnown(a.Pointed(id, a.seen.value[data], |data|))
  {
    KnownIsKept(a, data);
    assert KnownAs(a.seen.value, Entry(id, a.seen.value[data], |data|, 1), a.bytes);
    hide KnownAs, Draft.Sound;
  }

  lemma KnownStored(a: Draft, data: Bytes)
    requires a.Sound() && EachKnown(a) && !a.Known(data)
    ensures EachKnown(a.Stored(data)) && a.Stored(data).Known(data) && a.Stored(data).seen.value[data] == a.dataBytes
  {
    StoringKeeps(a, data);
    var w := a.Stored(data);
    forall i | 0 <= i < |a.entries|
      ensures KnownAs(w.seen.value, a.entries[i], w.bytes)
    {
      DataKeeps(a.entries[i], a.bytes, w.bytes, a.dataBytes);
      assert KnownAs(a.seen.value, a.entries[i], a.bytes);
    }
  }

  lemma WritingKeepsEachKnown(a: Draft, id: nat, data: Bytes)
    requires a.Sound() && EachKnown(a)
    ensures EachKnown(a.Written(id, data))
  {
    var next := a.Offered(id);
    assert next.Sound() && EachKnown(next);
    hide EachKnown, Draft.Sound, Draft.Lengthened, Draft.Pointed, Draft.Stored;
    if a.CarriesOn(id, data) {
      KnownLengthened(next);
    } else if a.Known(data) {
      KnownPointed(next, id, data);
    } else {
      KnownStored(next, data);
      StoringKeeps(next, data);
      KnownPointed(next.Stored(data), id, data);
    }
  }

  /** The same tile is stored at one place only. */
  ghost predicate StoredOnce(archive: PMTiles)
    requires archive.Valid()
  {
    forall i, j :: 0 <= i < |archive.entries| && 0 <= j < |archive.entries| &&
                   archive.entries[i].Data(archive.data) == archive.entries[j].Data(archive.data) ==>
                     archive.entries[i].offset == archive.entries[j].offset
  }

  lemma EachKnownStoredOnce(a: Draft, archive: PMTiles)
    requires a.Sound() && EachKnown(a) && archive.Valid()
    requires archive.data == a.bytes[..a.dataBytes] && forall e :: e in archive.entries ==> e in a.entries
    ensures StoredOnce(archive)
  {
    forall i | 0 <= i < |archive.entries|
      ensures KnownAs(a.seen.value, archive.entries[i], a.bytes) &&
              archive.entries[i].Data(archive.data) == archive.entries[i].Data(a.bytes)
    {
      assert archive.entries[i] in a.entries;
      DataKeeps(archive.entries[i], a.bytes, archive.data, a.dataBytes);
    }
  }

  /** Nothing is looked up, and no entry stands for more than one tile. */
  ghost predicate EachAlone(a: Draft) {
    a.seen.None? && forall i :: 0 <= i < |a.entries| ==> a.entries[i].runLength == 1
  }

  /** So far tiles are stored as was asked. */
  ghost predicate AsAsked(a: Draft, deduplicate: bool) {
    if deduplicate then EachKnown(a) else EachAlone(a)
  }

  lemma WritingKeepsAsAsked(a: Draft, id: nat, data: Bytes, deduplicate: bool)
    requires a.Sound() && AsAsked(a, deduplicate)
    ensures AsAsked(a.Written(id, data), deduplicate)
  {
    if deduplicate {
      WritingKeepsEachKnown(a, id, data);
    }
    hide EachKnown;
  }

  /** An archive stores a tile once if it was deduplicated, and each tile under an entry of its own if it was not. */
  ghost predicate StoredAsAsked(archive: PMTiles, deduplicate: bool)
    requires archive.Valid()
  {
    if deduplicate then StoredOnce(archive)
    else forall i :: 0 <= i < |archive.entries| ==> archive.entries[i].runLength == 1
  }

  lemma ArchiveIsAsAsked(a: Draft, archive: PMTiles, deduplicate: bool)
    requires a.Sound() && AsAsked(a, deduplicate) && archive.Valid()
    requires archive.data == a.bytes[..a.dataBytes] && archive.entries == a.entries
    ensures StoredAsAsked(archive, deduplicate)
  {
    if deduplicate {
      EachKnownStoredOnce(a, archive);
    }
  }
}
