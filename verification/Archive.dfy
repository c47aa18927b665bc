/**
 What a PMTiles archive holds: entries that each address a run of tile ids, and
 the bytes they point into; and what adding a tile does to it.
 */
module Archive {

  datatype Option<+T> = None | Some(value: T)

  newtype Byte = b: int | 0 <= b < 256

  type Bytes = seq<Byte>

  datatype Tile = Tile(id: nat, data: Bytes)

  /** Tiles tileId up to tileId + runLength all hold the same `length` bytes at `offset`. */
  datatype Entry = Entry(tileId: nat, offset: nat, length: nat, runLength: nat) {
    function End(): nat {
      tileId + runLength
    }

    predicate Within(size: nat) {
      offset + length <= size
    }

    function Data(bytes: Bytes): Bytes
      requires Within(|bytes|)
    {
      bytes[offset..offset + length]
    }
  }

  ghost predicate AllWithin(entries: seq<Entry>, size: nat) {
    forall i :: 0 <= i < |entries| ==> entries[i].Within(size)
  }

  ghost predicate NoEmptyRuns(entries: seq<Entry>) {
    forall i :: 0 <= i < |entries| ==> 0 < entries[i].runLength
  }

  /** A run of consecutive tiles holding the same bytes. */
  function Run(first: nat, count: nat, data: Bytes): seq<Tile> {
    if count == 0 then [] else Run(first, count - 1, data) + [Tile(first + count - 1, data)]
  }

  /** Every tile the entries address, in the order of the entries. */
  function TilesOf(entries: seq<Entry>, bytes: Bytes): seq<Tile>
    requires AllWithin(entries, |bytes|)
  {
    if entries == [] then []
    else
      var last := entries[|entries| - 1];
      TilesOf(entries[..|entries| - 1], bytes) + Run(last.tileId, last.runLength, last.Data(bytes))
  }

  /** Writing at a position of a file, over what is there and past its end. */
  function Overwrite(bytes: Bytes, at: nat, data: Bytes): (r: Bytes)
    requires at <= |bytes|
    ensures at + |data| <= |r| && r[..at] == bytes[..at] && r[at..at + |data|] == data
  {
    bytes[..at] + data + if at + |data| <= |bytes| then bytes[at + |data|..] else []
  }

  /** What is addressed below a size does not change when something is written above it. */
  lemma {:induction false} TilesKeep(entries: seq<Entry>, bytes: Bytes, bytes': Bytes, size: nat)
    requires AllWithin(entries, size) && size <= |bytes| && size <= |bytes'| && bytes[..size] == bytes'[..size]
    ensures TilesOf(entries, bytes) == TilesOf(entries, bytes')
  {
    if entries != [] {
      TilesKeep(entries[..|entries| - 1], bytes, bytes', size);
      DataKeeps(entries[|entries| - 1], bytes, bytes', size);
    }
  }

  lemma DataKeeps(e: Entry, bytes: Bytes, bytes': Bytes, size: nat)
    requires e.Within(size) && size <= |bytes| && size <= |bytes'| && bytes[..size] == bytes'[..size]
    ensures e.Data(bytes) == e.Data(bytes')
  {
    assert e.Data(bytes) == bytes[..size][e.offset..e.offset + e.length];
    assert e.Data(bytes') == bytes'[..size][e.offset..e.offset + e.length];
  }

  /** The first `size` bytes of a file hold some data at a position. */
  ghost predicate Keeps(bytes: Bytes, size: nat, at: nat, data: Bytes) {
    at + |data| <= size <= |bytes| && bytes[at..at + |data|] == data
  }

  lemma StillKeeps(bytes: Bytes, size: nat, bytes': Bytes, size': nat, at: nat, data: Bytes)
    requires Keeps(bytes, size, at, data) && size <= size' <= |bytes'| && bytes[..size] == bytes'[..size]
    ensures Keeps(bytes', size', at, data)
  {
    assert bytes[at..at + |data|] == bytes[..size][at..at + |data|];
    assert bytes'[at..at + |data|] == bytes'[..size][at..at + |data|];
  }

  /**
   What a writer has so far. `seen` is where each distinct tile's bytes are, and is absent where
   nothing is deduplicated.
   */
  datatype Draft = Draft(
    entries: seq<Entry>, seen: Option<map<Bytes, nat>>, bytes: Bytes, dataBytes: nat,
    addressed: nat, clustered: bool, lastId: int)
  {
    ghost predicate Sound() {
      && dataBytes <= |bytes|
      && AllWithin(entries, dataBytes)
      && (seen.Some? ==> forall d :: d in seen.value ==> Keeps(bytes, dataBytes, seen.value[d], d))
    }

    ghost function Tiles(): seq<Tile>
      requires Sound()
    {
      TilesOf(entries, bytes)
    }

    predicate Known(data: Bytes) {
      seen.Some? && data in seen.value
    }

    /** The next tile carries on the last entry's run, as far as ids and offsets tell. */
    predicate CarriesOn(id: nat, data: Bytes) {
      && Known(data) && entries != []
      && entries[|entries| - 1].offset == seen.value[data] && id == entries[|entries| - 1].End()
    }

    function Offered(id: nat): Draft {
      this.(clustered := clustered && !(id <= lastId), lastId := id, addressed := addressed + 1)
    }

    /** The last run, one tile longer. */
    function Lengthened(): Draft
      requires entries != []
    {
      var last := entries[|entries| - 1];
      this.(entries := entries[|entries| - 1 := last.(runLength := last.runLength + 1)])
    }

    /** An entry for bytes already stored. */
    function Pointed(id: nat, offset: nat, length: nat): Draft {
      this.(entries := entries + [Entry(id, offset, length, 1)])
    }

    /** The bytes stored after all the others. */
    function Stored(data: Bytes): Draft
      requires dataBytes <= |bytes|
    {
      this.(bytes := Overwrite(bytes, dataBytes, data),
            seen := if seen.Some? then Some(seen.value[data := dataBytes]) else None,
            dataBytes := dataBytes + |data|)
    }

    /** A draft after one more tile. */
    function Written(id: nat, data: Bytes): Draft
      requires dataBytes <= |bytes|
    {
      var next := Offered(id);
      if CarriesOn(id, data) then next.Lengthened()
      else if Known(data) then next.Pointed(id, seen.value[data], |data|)
      else next.Stored(data).Pointed(id, dataBytes, |data|)
    }

    /** The run it would carry on is of tiles of another length, which share only where they start. */
    predicate Confuses(id: nat, data: Bytes) {
      CarriesOn(id, data) && entries[|entries| - 1].length != |data|
    }

    /** Nothing is empty, and every place known bytes start at has one length, given by `lengths`. */
    ghost predicate ApartBy(lengths: map<nat, nat>) {
      && (forall o :: o in lengths ==> o < dataBytes && 0 < lengths[o])
      && (forall i :: 0 <= i < |entries| ==> 0 < entries[i].length)
      && (forall i :: 0 <= i < |entries| && entries[i].offset in lengths ==>
          entries[i].length == lengths[entries[i].offset])
      && (seen.Some? ==> forall d :: d in seen.value ==> seen.value[d] in lengths && |d| == lengths[seen.value[d]])
    }

    /** What keeps tiles of different lengths apart: without empty ones, every distinct tile starts somewhere else. */
    ghost predicate Apart() {
      exists lengths :: ApartBy(lengths)
    }
  }

  lemma TilesOfOneMore(entries: seq<Entry>, e: Entry, bytes: Bytes)
    requires AllWithin(entries, |bytes|) && e.Within(|bytes|)
    ensures TilesOf(entries + [e], bytes) == TilesOf(entries, bytes) + Run(e.tileId, e.runLength, e.Data(bytes))
  {
    assert (entries + [e])[..|entries|] == entries;
  }

  lemma TilesOfLongerRun(entries: seq<Entry>, bytes: Bytes)
    requires entries != [] && AllWithin(entries, |bytes|)
    ensures var last := entries[|entries| - 1];
            var longer := entries[|entries| - 1 := last.(runLength := last.runLength + 1)];
            AllWithin(longer, |bytes|) &&
              TilesOf(longer, bytes) == TilesOf(entries, bytes) + [Tile(last.End(), last.Data(bytes))]
  {
    var n := |entries| - 1;
    var last := entries[n];
    var longer := entries[n := last.(runLength := last.runLength + 1)];
    assert longer[..n] == entries[..n];
    assert Run(last.tileId, last.runLength + 1, last.Data(bytes)) ==
           Run(last.tileId, last.runLength, last.Data(bytes)) + [Tile(last.End(), last.Data(bytes))];
  }

  lemma LengtheningAppends(a: Draft)
    requires a.Sound() && a.entries != []
    ensures var last := a.entries[|a.entries| - 1];
            a.Lengthened().Sound() && a.Lengthened().Tiles() == a.Tiles() + [Tile(last.End(), last.Data(a.bytes))]
  {
    TilesOfLongerRun(a.entries, a.bytes);
  }

  lemma PointingAppends(a: Draft, id: nat, offset: nat, length: nat)
    requires a.Sound() && offset + length <= a.dataBytes
    ensures a.Pointed(id, offset, length).Sound()
    ensures a.Pointed(id, offset, length).Tiles() == a.Tiles() + [Tile(id, a.bytes[offset..offset + length])]
  {
    TilesOfOneMore(a.entries, Entry(id, offset, length, 1), a.bytes);
    assert Run(id, 1, a.bytes[offset..offset + length]) == [Tile(id, a.bytes[offset..offset + length])];
  }

  lemma StoringKeeps(a: Draft, data: Bytes)
    requires a.Sound()
    ensures var w := a.Stored(data);
            && w.Sound() && w.Tiles() == a.Tiles()
            && w.bytes[a.dataBytes..a.dataBytes + |data|] == data
            && w.bytes[..a.dataBytes] == a.bytes[..a.dataBytes]
  {
    var w := a.Stored(data);
    TilesKeep(a.entries, a.bytes, w.bytes, a.dataBytes);
    hide Keeps;
    if a.seen.Some? {
      forall d | d in w.seen.value
        ensures Keeps(w.bytes, w.dataBytes, w.seen.value[d], d)
      {
        if d == data {
          JustKept(a.bytes, a.dataBytes, data);
        } else {
          StillKeeps(a.bytes, a.dataBytes, w.bytes, w.dataBytes, a.seen.value[d], d);
        }
      }
    }
  }

  lemma JustKept(bytes: Bytes, at: nat, data: Bytes)
    requires at <= |bytes|
    ensures Keeps(Overwrite(bytes, at, data), at + |data|, at, data)
  {
  }

  lemma SameLast<T>(s: seq<T>, x: T, y: T)
    ensures s + [x] == s + [y] <==> x == y
  {
    assert (s + [x])[|s|] == x && (s + [y])[|s|] == y;
  }

  lemma KnownIsKept(a: Draft, data: Bytes)
    requires a.Sound() && a.Known(data)
    ensures Keeps(a.bytes, a.dataBytes, a.seen.value[data], data)
  {
  }

  /** The bytes of the run carried on are the new tile's exactly where their lengths agree. */
  lemma LastOfRun(a: Draft, id: nat, data: Bytes)
    requires a.Sound() && a.CarriesOn(id, data)
    ensures var last := a.entries[|a.entries| - 1];
            last.Within(|a.bytes|) && (last.Data(a.bytes) == data <==> last.length == |data|)
  {
    KnownIsKept(a, data);
  }

  /**
   Adding a tile appends exactly that tile to what the archive holds -- unless
   it carries on a run of tiles of another length, which happens only around
   empty tiles, and then it never does.
   */
  lemma WritingAppends(a: Draft, id: nat, data: Bytes)
    requires a.Sound()
    ensures a.Written(id, data).Sound()
    ensures a.Written(id, data).Tiles() == a.Tiles() + [Tile(id, data)] <==> !a.Confuses(id, data)
  {
    var next := a.Offered(id);
    assert next.Sound() && next.Tiles() == a.Tiles();
    hide Draft.Lengthened, Draft.Pointed, Draft.Stored, Draft.Sound, TilesOf;
    if a.CarriesOn(id, data) {
      var last := a.entries[|a.entries| - 1];
      LengtheningAppends(next);
      LastOfRun(a, id, data);
      SameLast(a.Tiles(), Tile(id, last.Data(a.bytes)), Tile(id, data));
    } else if a.Known(data) {
      KnownIsKept(a, data);
      PointingAppends(next, id, a.seen.value[data], |data|);
    } else {
      StoringKeeps(next, data);
      PointingAppends(next.Stored(data), id, a.dataBytes, |data|);
    }
  }

  lemma KnownStaysApart(a: Draft, id: nat, data: Bytes, lengths: map<nat, nat>)
    requires a.Sound() && a.ApartBy(lengths) && a.Known(data)
    ensures !a.Confuses(id, data) && a.Written(id, data).ApartBy(lengths)
  {
    hide Draft.Sound;
  }

  lemma NewStaysApart(a: Draft, id: nat, data: Bytes, lengths: map<nat, nat>)
    requires a.Sound() && a.ApartBy(lengths) && !a.Known(data) && data != []
    ensures a.Written(id, data).ApartBy(lengths[a.dataBytes := |data|])
  {
    assert a.dataBytes <= |a.bytes| && AllWithin(a.entries, a.dataBytes);
    hide Draft.Sound;
  }

  /** Tiles that are not empty are kept apart, and none is ever confused with another. */
  lemma FullTilesAreNotConfused(a: Draft, id: nat, data: Bytes)
    requires a.Sound() && a.Apart() && data != []
    ensures !a.Confuses(id, data) && a.Written(id, data).Apart()
  {
    var lengths :| a.ApartBy(lengths);
    hide Draft.ApartBy, Draft.Written, Draft.Sound;
    if a.Known(data) {
      KnownStaysApart(a, id, data, lengths);
    } else {
      NewStaysApart(a, id, data, lengths);
    }
  }

  /** An empty tile that is. */
  lemma AnEmptyTileIsConfused()
    ensures var empty: Bytes, full: Bytes := [], [1];
            var start := Draft([], Some(map[]), [], 0, 0, true, -1);
            var two := start.Written(0, empty).Written(1, full);
            && two.Sound() && two.Tiles() == [Tile(0, empty), Tile(1, full)]
            && two.Confuses(2, empty)
            && two.Written(2, empty).Sound()
            && two.Written(2, empty).Tiles() != two.Tiles() + [Tile(2, empty)]
  {
    var empty: Bytes, full: Bytes := [], [1];
    var start := Draft([], Some(map[]), [], 0, 0, true, -1);
    var one := start.Written(0, empty);
    var two := one.Written(1, full);
    WritingAppends(start, 0, empty);
    WritingAppends(one, 1, full);
    WritingAppends(two, 2, empty);
  }

  /** Tiles offered one after another. */
  ghost function WrittenAll(a: Draft, tiles: seq<Tile>): Draft
    requires a.Sound()
    ensures WrittenAll(a, tiles).Sound()
  {
    if tiles == [] then a
    else
      var before, last := WrittenAll(a, tiles[..|tiles| - 1]), tiles[|tiles| - 1];
      WritingAppends(before, last.id, last.data);
      before.Written(last.id, last.data)
  }

  /** None of the tiles is confused with the run before it. */
  ghost predicate NoneConfused(a: Draft, tiles: seq<Tile>)
    requires a.Sound()
  {
    tiles == [] ||
    (var rest, last := tiles[..|tiles| - 1], tiles[|tiles| - 1];
     NoneConfused(a, rest) && !WrittenAll(a, rest).Confuses(last.id, last.data))
  }

  lemma WritingAddsOne(a: Draft, id: nat, data: Bytes) returns (added: Tile)
    requires a.Sound()
    ensures a.Written(id, data).Sound() && a.Written(id, data).Tiles() == a.Tiles() + [added]
  {
    WritingAppends(a, id, data);
    added := Tile(id, data);
    if a.Confuses(id, data) {
      added := Tile(id, a.entries[|a.entries| - 1].Data(a.bytes));
      LengtheningAppends(a.Offered(id));
      assert a.Offered(id).Tiles() == a.Tiles();
    }
  }

  /** Offering tiles one after another appends exactly them, if and only if none is confused. */
  lemma {:induction false} WritingAllAppends(a: Draft, tiles: seq<Tile>)
    requires a.Sound()
    ensures |WrittenAll(a, tiles).Tiles()| == |a.Tiles()| + |tiles|
    ensures WrittenAll(a, tiles).Tiles() == a.Tiles() + tiles <==> NoneConfused(a, tiles)
  {
    hide Draft.Written, Draft.Sound, Draft.Confuses, Draft.Tiles, TilesOf;
    if tiles != [] {
      var n := |tiles| - 1;
      var rest, last := tiles[..n], tiles[n];
      var before := WrittenAll(a, rest);
      WritingAllAppends(a, rest);
      WritingAppends(before, last.id, last.data);
      var added := WritingAddsOne(before, last.id, last.data);
      PrefixesAgree(a.Tiles(), before.Tiles(), rest, added, last);
      assert tiles == rest + [last];
    } else {
      assert a.Tiles() + tiles == a.Tiles();
    }
  }

  lemma PrefixesAgree<T>(s: seq<T>, t: seq<T>, rest: seq<T>, x: T, y: T)
    requires |t| == |s| + |rest|
    ensures t + [x] == s + (rest + [y]) <==> t == s + rest && x == y
    ensures t + [x] == t + [y] <==> x == y
  {
    assert s + (rest + [y]) == (s + rest) + [y];
    SameLast(t, x, y);
    assert (t + [x])[..|t|] == t && ((s + rest) + [y])[..|t|] == s + rest;
    assert (t + [x])[|t|] == x && ((s + rest) + [y])[|t|] == y;
  }

  /** Where no tile is empty none is confused, so an archive holds exactly what it was offered. */
  lemma {:induction false} FullTilesAreAllWritten(a: Draft, tiles: seq<Tile>)
    requires a.Sound() && a.Apart()
    requires forall i :: 0 <= i < |tiles| ==> tiles[i].data != []
    ensures NoneConfused(a, tiles) && WrittenAll(a, tiles).Apart()
    ensures WrittenAll(a, tiles).Tiles() == a.Tiles() + tiles
  {
    hide Draft.Written, Draft.Sound, Draft.Confuses, Draft.Tiles, Draft.Apart;
    WritingAllAppends(a, tiles);
    if tiles != [] {
      var n := |tiles| - 1;
      FullTilesAreAllWritten(a, tiles[..n]);
      FullTilesAreNotConfused(WrittenAll(a, tiles[..n]), tiles[n].id, tiles[n].data);
    }
  }
}
