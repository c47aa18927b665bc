/** Putting a sharded bake back together: the shards' archives appended one after another, with no sort. */
module Assemble {
  import opened Archive
  import opened Coverage
  import opened Sorting
  import opened Storing
  import opened TileIds
  import opened Writer

  /** What an archive's tiles are. */
  datatype Kind = Kind(tileType: nat, compression: nat)

  /** Nothing said: no known type, and not compressed. */
  const UNKNOWN := Kind(0, 1)

  /** A finished archive as it is read back, a directory at a time. */
  datatype Archived = Archived(kind: Kind, directories: seq<seq<Entry>>, data: Bytes) {
    ghost predicate Valid() {
      forall entries :: entries in directories ==> AreRuns(entries, data)
    }
  }

  /** One shard's archive, or nothing where the shard came back empty, and the run of ids it was to hold. */
  datatype Fragment = Fragment(archive: Option<Archived>, from: nat, to: nat)

  datatype Refusal = NotARun | OutOfOrder | Disagree | Outside | AllEmpty | Missing

  datatype Assembly = Assembled(archive: PMTiles, kind: Kind, written: nat, fragments: nat) | Refused(why: Refusal)

  /** A run of tiles to be written. */
  datatype TileRun = TileRun(tileId: nat, count: nat, data: Bytes)

  ghost predicate AreRuns(entries: seq<Entry>, data: Bytes) {
    AllWithin(entries, |data|) && forall i :: 0 <= i < |entries| ==> 1 <= entries[i].runLength
  }

  ghost predicate Counted(runs: seq<TileRun>) {
    forall i :: 0 <= i < |runs| ==> 1 <= runs[i].count
  }

  /** An entry's tiles as they are read: one starting where the last one did is not read again. */
  ghost function DataRead(entries: seq<Entry>, data: Bytes, i: nat): Bytes
    requires AllWithin(entries, |data|) && i < |entries|
  {
    if i > 0 && entries[i - 1].offset == entries[i].offset then DataRead(entries, data, i - 1)
      else entries[i].Data(data)
  }

  ghost function RunsRead(entries: seq<Entry>, data: Bytes): (runs: seq<TileRun>)
    requires AreRuns(entries, data)
    ensures |runs| == |entries| && Counted(runs)
  {
    seq(|entries|, i requires 0 <= i < |entries| =>
        TileRun(entries[i].tileId, entries[i].runLength, DataRead(entries, data, i)))
  }

  /** Entries one after the other that start at one place take as much of it. */
  ghost predicate Steady(entries: seq<Entry>) {
    forall i, j :: 0 <= i && j == i + 1 < |entries| && entries[i].offset == entries[j].offset ==>
      entries[i].length == entries[j].length
  }

  lemma {:induction false} SteadyReadsRight(entries: seq<Entry>, data: Bytes, i: nat)
    requires AllWithin(entries, |data|) && i < |entries| && Steady(entries)
    ensures DataRead(entries, data, i) == entries[i].Data(data)
  {
    if i > 0 && entries[i - 1].offset == entries[i].offset {
      SteadyReadsRight(entries, data, i - 1);
    }
  }

  /** Every entry's tiles are read as they are exactly where entries that start at one place are steady. */
  lemma ReadingIsRight(entries: seq<Entry>, data: Bytes)
    requires AllWithin(entries, |data|)
    ensures Steady(entries) <==> forall i :: 0 <= i < |entries| ==> DataRead(entries, data, i) == entries[i].Data(data)
  {
    if Steady(entries) {
      forall i | 0 <= i < |entries|
        ensures DataRead(entries, data, i) == entries[i].Data(data)
      {
        SteadyReadsRight(entries, data, i);
      }
    } else {
      var i, j :| 0 <= i && j == i + 1 < |entries| && entries[i].offset == entries[j].offset &&
        entries[i].length != entries[j].length;
      assert DataRead(entries, data, j) == DataRead(entries, data, i);
      assert |entries[i].Data(data)| != |entries[j].Data(data)|;
    }
  }

  /** What the runs write, as tiles. */
  ghost function TilesIn(runs: seq<TileRun>): seq<Tile> {
    if runs == [] then []
    else
      var last := runs[|runs| - 1];
      TilesIn(runs[..|runs| - 1]) + Run(last.tileId, last.count, last.data)
  }

  lemma TilesInOneMore(runs: seq<TileRun>, run: TileRun)
    ensures TilesIn(runs + [run]) == TilesIn(runs) + Run(run.tileId, run.count, run.data)
  {
    assert (runs + [run])[..|runs|] == runs;
    hide Run;
  }

  lemma {:induction false} TilesInAdds(a: seq<TileRun>, b: seq<TileRun>)
    ensures TilesIn(a + b) == TilesIn(a) + TilesIn(b)
  {
    if b == [] {
      assert a + b == a;
    } else {
      var n := |b| - 1;
      TilesInAdds(a, b[..n]);
      assert a + b == (a + b[..n]) + [b[n]] && b == b[..n] + [b[n]];
      hide TilesIn, Run;
      TilesInOneMore(a + b[..n], b[n]);
      TilesInOneMore(b[..n], b[n]);
    }
  }

  /** A draft after runs of tiles. */
  ghost function WrittenRuns(a: Draft, runs: seq<TileRun>): (w: Draft)
    requires a.Sound() && Counted(runs)
    ensures w.Sound()
  {
    if runs == [] then a
    else
      var before, last := WrittenRuns(a, runs[..|runs| - 1]), runs[|runs| - 1];
      RunAppends(before, last.tileId, last.count, last.data);
      WrittenRun(before, last.tileId, last.count, last.data)
  }

  /** Runs that come one after the other. */
  ghost predicate RunsAscend(runs: seq<TileRun>, after: int) {
    && (forall i :: 0 <= i < |runs| ==> after < runs[i].tileId)
    && (forall i, j :: 0 <= i < j < |runs| ==> runs[i].tileId + runs[i].count <= runs[j].tileId)
  }

  /** Nothing has been offered out of order, and what starts at one place is one thing. */
  ghost predicate Tidy(a: Draft) {
    && a.clustered && Ascends(a.entries, EarlierEntry) && OneLength(a.entries)
    && NoEmptyRuns(a.entries)
    && forall i :: 0 <= i < |a.entries| ==> a.entries[i].tileId <= a.lastId
  }

  lemma KnownFits(a: Draft, id: nat, data: Bytes)
    requires a.Sound() && a.Apart() && a.Known(data)
    ensures FitsWith(a.entries, Entry(id, a.seen.value[data], |data|, 1))
  {
    var lengths :| a.ApartBy(lengths);
  }

  lemma NewFits(a: Draft, id: nat, data: Bytes)
    requires a.Sound() && a.Apart()
    ensures FitsWith(a.entries, Entry(id, a.dataBytes, |data|, 1))
  {
    var lengths :| a.ApartBy(lengths);
  }

  lemma OneLengthOneMore(entries: seq<Entry>, e: Entry)
    requires OneLength(entries) && FitsWith(entries, e)
    ensures OneLength(entries + [e])
  {
  }

  lemma WritingKeepsOneLength(a: Draft, id: nat, data: Bytes)
    requires a.Sound() && a.Apart() && OneLength(a.entries)
    ensures OneLength(a.Written(id, data).entries)
  {
    WrittenInOneOfThreeWays(a, id, data);
    assert a.CarriesOn(id, data) ==> OneLength(a.Lengthened().entries);
    hide Draft.Sound, Draft.Apart, Draft.Written, OneLength, FitsWith, Draft.CarriesOn;
    if a.CarriesOn(id, data) {
    } else if a.Known(data) {
      KnownFits(a, id, data);
      OneLengthOneMore(a.entries, Entry(id, a.seen.value[data], |data|, 1));
    } else {
      NewFits(a, id, data);
      OneLengthOneMore(a.entries, Entry(id, a.dataBytes, |data|, 1));
    }
  }

  /** All of tidiness but where entries start. */
  ghost predicate InTurn(a: Draft) {
    && a.clustered && Ascends(a.entries, EarlierEntry)
    && NoEmptyRuns(a.entries)
    && (forall i :: 0 <= i < |a.entries| ==> a.entries[i].tileId <= a.lastId)
  }

  lemma RunKeepsInTurn(a: Draft, tileId: nat, count: nat, data: Bytes)
    requires a.Sound() && InTurn(a) && a.lastId < tileId && 1 <= count
    ensures var w := WrittenRun(a, tileId, count, data);
            InTurn(w) && w.lastId == tileId + count - 1 && w.addressed == a.addressed + count
  {
    hide Draft.Sound;
  }

  lemma RunKeepsOneLength(a: Draft, tileId: nat, count: nat, data: Bytes)
    requires a.Sound() && a.Apart() && OneLength(a.entries) && 1 <= count
    ensures OneLength(WrittenRun(a, tileId, count, data).entries)
  {
    WritingKeepsOneLength(a, tileId, data);
    WrittenHasAnEntry(a, tileId, data);
    hide Draft.Written, Draft.Sound, Draft.Apart;
  }

  lemma RunKeepsTidy(a: Draft, tileId: nat, count: nat, data: Bytes)
    requires a.Sound() && a.Apart() && Tidy(a) && a.lastId < tileId && 1 <= count
    ensures var w := WrittenRun(a, tileId, count, data);
            Tidy(w) && w.lastId == tileId + count - 1 && w.addressed == a.addressed + count
  {
    assert InTurn(a);
    hide Draft.Sound, Draft.Apart, WrittenRun, OneLength;
    RunKeepsInTurn(a, tileId, count, data);
    RunKeepsOneLength(a, tileId, count, data);
  }

  lemma LongerKeepsApart(a: Draft, entries: seq<Entry>, addressed: nat, lastId: int)
    requires a.Apart() && |entries| == |a.entries|
    requires forall i :: 0 <= i < |entries| ==>
             entries[i].offset == a.entries[i].offset && entries[i].length == a.entries[i].length
    ensures a.(entries := entries, addressed := addressed, lastId := lastId).Apart()
  {
    var lengths :| a.ApartBy(lengths);
    assert a.(entries := entries, addressed := addressed, lastId := lastId).ApartBy(lengths);
  }

  lemma RunKeepsApart(a: Draft, tileId: nat, count: nat, data: Bytes)
    requires a.Sound() && a.Apart() && data != [] && 1 <= count
    ensures !a.Confuses(tileId, data) && WrittenRun(a, tileId, count, data).Apart()
  {
    FullTilesAreNotConfused(a, tileId, data);
    WrittenHasAnEntry(a, tileId, data);
    var w, r := a.Written(tileId, data), WrittenRun(a, tileId, count, data);
    hide Draft.Written, Draft.Apart, Draft.Sound, Draft.Confuses;
    if count > 1 {
      LongerKeepsApart(w, r.entries, r.addressed, r.lastId);
    }
  }

  /** Appended in order to a tidy draft, runs that are not empty are exactly what is added. */
  lemma {:induction false} RunsAppend(a: Draft, runs: seq<TileRun>)
    requires a.Sound() && a.Apart() && Tidy(a) && Counted(runs) && RunsAscend(runs, a.lastId)
    requires forall i :: 0 <= i < |runs| ==> runs[i].data != []
    ensures var w := WrittenRuns(a, runs);
            && w.Apart() && Tidy(w)
            && w.Tiles() == a.Tiles() + TilesIn(runs)
            && w.addressed == a.addressed + |TilesIn(runs)|
            && w.lastId == if runs == [] then a.lastId else runs[|runs| - 1].tileId + runs[|runs| - 1].count - 1
  {
    hide Draft.Sound, Draft.Apart, Draft.Tiles, Tidy, WrittenRun, Draft.Confuses;
    if runs == [] {
      assert a.Tiles() + TilesIn(runs) == a.Tiles();
    } else {
      var n := |runs| - 1;
      var before, last := WrittenRuns(a, runs[..n]), runs[n];
      RunsAppend(a, runs[..n]);
      assert before.lastId < last.tileId;
      RunAppends(before, last.tileId, last.count, last.data);
      RunKeepsApart(before, last.tileId, last.count, last.data);
      RunKeepsTidy(before, last.tileId, last.count, last.data);
      RunIsAsLong(last.tileId, last.count, last.data);
      assert (a.Tiles() + TilesIn(runs[..n])) + Run(last.tileId, last.count, last.data) ==
             a.Tiles() + (TilesIn(runs[..n]) + Run(last.tileId, last.count, last.data));
    }
  }

  lemma {:induction false} RunIsAsLong(first: nat, count: nat, data: Bytes)
    ensures |Run(first, count, data)| == count
  {
    if count > 0 {
      RunIsAsLong(first, count - 1, data);
    }
  }

  /** The writer is where runs of tiles appended to a draft leave it. */
  ghost predicate HasWritten(writer: PMTilesWriter, start: Draft, runs: seq<TileRun>)
    requires start.Sound() && Counted(runs)
    reads writer, writer.handle
  {
    writer.Valid() && writer.State() == WrittenRuns(start, runs)
  }

  ghost predicate AllInside(entries: seq<Entry>, from: nat, to: nat) {
    forall i :: 0 <= i < |entries| ==> from <= entries[i].tileId && entries[i].End() <= to
  }

  /** A directory's tiles are appended, up to the first that is outside the shard. */
  method AppendEntries(writer: PMTilesWriter, entries: seq<Entry>, data: Bytes, from: nat, to: nat, ghost start: Draft,
                       ghost before: seq<TileRun>)
    returns (ok: bool)
    requires start.Sound() && Counted(before) && HasWritten(writer, start, before) && AreRuns(entries, data)
    modifies writer, writer.handle
    ensures ok <==> AllInside(entries, from, to)
    ensures ok ==> HasWritten(writer, start, before + RunsRead(entries, data))
  {
    hide *;
    var lastOffset: int := -1;
    var lastData: Bytes := [];
    ghost var runs, written := RunsRead(entries, data), before;
    StartsReadingEntries(entries, data, before, from, to);
    for i := 0 to |entries|
      invariant InsideUpTo(entries, i, from, to)
      invariant HasRead(entries, data, i, lastOffset, lastData)
      invariant written == before + runs[..i] && Counted(written)
      invariant HasWritten(writer, start, written)
    {
      var inside := Inside(entries, i, from, to);
      if !inside {
        return false;
      }
      lastOffset, lastData := ReadEntry(entries, data, i, lastOffset, lastData);
      TakenOneMore(before, runs, i);
      AppendRun(writer, TileRun(entries[i].tileId, entries[i].runLength, lastData), start, written);
      written := written + [runs[i]];
    }
    WhollyInside(entries, from, to);
    ok := true;
  }

  lemma StartsReadingEntries(entries: seq<Entry>, data: Bytes, before: seq<TileRun>, from: nat, to: nat)
    requires AreRuns(entries, data)
    ensures HasRead(entries, data, 0, -1, []) && InsideUpTo(entries, 0, from, to)
    ensures var runs := RunsRead(entries, data); before + runs[..0] == before && runs[..|entries|] == runs
  {
  }

  lemma WhollyInside(entries: seq<Entry>, from: nat, to: nat)
    ensures InsideUpTo(entries, |entries|, from, to) <==> AllInside(entries, from, to)
  {
  }

  ghost predicate InsideUpTo(entries: seq<Entry>, n: nat, from: nat, to: nat)
    requires n <= |entries|
  {
    forall i :: 0 <= i < n ==> from <= entries[i].tileId && entries[i].End() <= to
  }

  /** One entry is checked against the shard's run of ids. */
  method Inside(entries: seq<Entry>, i: nat, from: nat, to: nat) returns (inside: bool)
    requires i < |entries| && InsideUpTo(entries, i, from, to)
    ensures if inside then InsideUpTo(entries, i + 1, from, to) else !AllInside(entries, from, to)
  {
    inside := from <= entries[i].tileId && entries[i].End() <= to;
  }

  /** What was last read, and where. */
  ghost predicate HasRead(entries: seq<Entry>, data: Bytes, i: nat, lastOffset: int, lastData: Bytes)
    requires AreRuns(entries, data) && i <= |entries|
  {
    if i == 0 then lastOffset == -1
    else lastOffset == entries[i - 1].offset && lastData == DataRead(entries, data, i - 1)
  }

  /** One entry's tiles are read, unless they start where the last ones did. */
  method ReadEntry(entries: seq<Entry>, data: Bytes, i: nat, lastOffset: int, lastData: Bytes)
    returns (offset: int, read: Bytes)
    requires AreRuns(entries, data) && i < |entries| && HasRead(entries, data, i, lastOffset, lastData)
    ensures HasRead(entries, data, i + 1, offset, read)
    ensures RunsRead(entries, data)[i] == TileRun(entries[i].tileId, entries[i].runLength, read) &&
            1 <= entries[i].runLength
  {
    var e := entries[i];
    offset, read := lastOffset, lastData;
    if e.offset != lastOffset {
      offset, read := e.offset, e.Data(data);
    }
  }

  lemma TakenOneMore<T>(before: seq<T>, runs: seq<T>, i: nat)
    requires i < |runs|
    ensures before + runs[..i + 1] == (before + runs[..i]) + [runs[i]]
  {
  }

  method AppendRun(writer: PMTilesWriter, run: TileRun, ghost start: Draft, ghost before: seq<TileRun>)
    requires start.Sound() && Counted(before) && HasWritten(writer, start, before) && 1 <= run.count
    modifies writer, writer.handle
    ensures Counted(before + [run]) && HasWritten(writer, start, before + [run])
  {
    assert (before + [run])[..|before|] == before;
    hide Draft.Sound, WrittenRun;
    var written := writer.WriteTiles(run.tileId, run.count, run.data);
  }

  ghost predicate AllRuns(directories: seq<seq<Entry>>, data: Bytes) {
    forall d :: 0 <= d < |directories| ==> AreRuns(directories[d], data)
  }

  ghost function RunsOfDirectories(directories: seq<seq<Entry>>, data: Bytes): (runs: seq<TileRun>)
    requires AllRuns(directories, data)
    ensures Counted(runs)
  {
    if directories == [] then []
    else RunsOfDirectories(directories[..|directories| - 1], data) + RunsRead(directories[|directories| - 1], data)
  }

  ghost predicate AllHeld(directories: seq<seq<Entry>>, from: nat, to: nat) {
    forall d :: 0 <= d < |directories| ==> AllInside(directories[d], from, to)
  }

  /** One kind of tile, or none known yet. */
  predicate OfKind(kind: Option<Kind>, archive: Archived) {
    archive.directories == [] || kind.None? || kind.value == archive.kind
  }

  /** One fragment's tiles are appended, or it is refused. */
  method AppendArchive(writer: PMTilesWriter, archive: Archived, from: nat, to: nat, kind: Option<Kind>,
                       ghost start: Draft, ghost before: seq<TileRun>)
    returns (why: Option<Refusal>, now: Option<Kind>)
    requires start.Sound() && Counted(before) && HasWritten(writer, start, before) &&
             AllRuns(archive.directories, archive.data)
    modifies writer, writer.handle
    ensures why.None? <==> OfKind(kind, archive) && AllHeld(archive.directories, from, to)
    ensures why.Some? ==> why.value.Disagree? || why.value.Outside?
    ensures why.Some? ==>
              if why.value.Disagree? then !OfKind(kind, archive) else !AllHeld(archive.directories, from, to)
    ensures why.None? ==> now == if archive.directories == [] then kind else Some(archive.kind)
    ensures why.None? ==> var runs := before + RunsOfDirectories(archive.directories, archive.data);
                          Counted(runs) && HasWritten(writer, start, runs)
  {
    var directories, data := archive.directories, archive.data;
    now := kind;
    ghost var runs := before;
    StartsReading(directories, data, before, from, to);
    hide *;
    for d := 0 to |directories|
      invariant d == 0 ==> now == kind
      invariant d > 0 ==> now == Some(archive.kind) && (kind.None? || kind.value == archive.kind)
      invariant HeldUpTo(directories, d, from, to)
      invariant Counted(runs) && ReadUpTo(directories, data, d, before, runs)
      invariant HasWritten(writer, start, runs)
    {
      if now.None? {
        now := Some(archive.kind);
      } else if now.value != archive.kind {
        NotOfKind(kind, archive);
        return Some(Disagree), now;
      }
      ReadOneMore(directories, data, d, before, runs, from, to);
      var ok := AppendEntries(writer, directories[d], data, from, to, start, runs);
      if !ok {
        return Some(Outside), now;
      }
      runs := runs + RunsRead(directories[d], data);
    }
    WhollyRead(directories, data, before, runs, from, to);
    IsOfKind(kind, archive);
    why := None;
  }

  lemma NotOfKind(kind: Option<Kind>, archive: Archived)
    requires archive.directories != [] && kind.Some? && kind.value != archive.kind
    ensures !OfKind(kind, archive)
  {
  }

  lemma IsOfKind(kind: Option<Kind>, archive: Archived)
    requires archive.directories == [] || kind.None? || kind.value == archive.kind
    ensures OfKind(kind, archive)
  {
  }

  ghost predicate HeldUpTo(directories: seq<seq<Entry>>, n: nat, from: nat, to: nat)
    requires n <= |directories|
  {
    forall d :: 0 <= d < n ==> AllInside(directories[d], from, to)
  }

  /** The first directories' runs, after those before. */
  ghost predicate ReadUpTo(directories: seq<seq<Entry>>, data: Bytes, n: nat, before: seq<TileRun>, runs: seq<TileRun>)
    requires n <= |directories| && AllRuns(directories, data)
  {
    runs == before + RunsOfDirectories(directories[..n], data)
  }

  lemma StartsReading(directories: seq<seq<Entry>>, data: Bytes, before: seq<TileRun>, from: nat, to: nat)
    requires AllRuns(directories, data)
    ensures HeldUpTo(directories, 0, from, to) && ReadUpTo(directories, data, 0, before, before)
  {
    assert before + RunsOfDirectories(directories[..0], data) == before;
  }

  lemma ReadOneMore(directories: seq<seq<Entry>>, data: Bytes, d: nat, before: seq<TileRun>, runs: seq<TileRun>,
                    from: nat, to: nat)
    requires d < |directories| && AllRuns(directories, data) && ReadUpTo(directories, data, d, before, runs) &&
             Counted(runs)
    requires HeldUpTo(directories, d, from, to)
    ensures AreRuns(directories[d], data)
    ensures Counted(runs + RunsRead(directories[d], data)) &&
            ReadUpTo(directories, data, d + 1, before, runs + RunsRead(directories[d], data))
    ensures AllInside(directories[d], from, to) ==> HeldUpTo(directories, d + 1, from, to)
    ensures !AllInside(directories[d], from, to) ==> !AllHeld(directories, from, to)
  {
    assert directories[..d + 1][..d] == directories[..d];
    hide AllInside, RunsRead;
  }

  lemma WhollyRead(directories: seq<seq<Entry>>, data: Bytes, before: seq<TileRun>, runs: seq<TileRun>, from: nat,
                   to: nat)
    requires AllRuns(directories, data) && ReadUpTo(directories, data, |directories|, before, runs)
    requires HeldUpTo(directories, |directories|, from, to)
    ensures AllHeld(directories, from, to) && runs == before + RunsOfDirectories(directories, data)
  {
    assert directories[..|directories|] == directories;
  }

  ghost predicate InOrder(fragments: seq<Fragment>) {
    && (forall i :: 0 <= i < |fragments| ==> fragments[i].from < fragments[i].to)
    && (forall i, j :: 0 <= i && j == i + 1 < |fragments| ==> fragments[i].to <= fragments[j].from)
  }

  /** A reason to refuse fragments that is one. */
  ghost predicate IsReason(fragments: seq<Fragment>, why: Refusal) {
    match why
    case NotARun => exists i :: 0 <= i < |fragments| && fragments[i].to <= fragments[i].from
    case OutOfOrder => exists i, j :: 0 <= i && j == i + 1 < |fragments| && fragments[j].from < fragments[i].to
    case Disagree => !Agree(fragments)
    case Outside => !AllHoldTheirOwn(fragments)
    case AllEmpty => Readable(fragments) && !SomeTile(fragments)
    case Missing => false
  }

  /** Shards are refused unless they are runs, and come in the order their ids run. */
  method CheckOrder(fragments: seq<Fragment>) returns (why: Option<Refusal>)
    ensures why.None? <==> InOrder(fragments)
    ensures why.Some? ==> IsReason(fragments, why.value)
  {
    var previousTo: int := -1;
    for i := 0 to |fragments|
      invariant InOrder(fragments[..i])
      invariant previousTo == if i == 0 then -1 else fragments[i - 1].to
    {
      var f := fragments[i];
      if !(f.from < f.to) {
        return Some(NotARun);
      }
      if f.from < previousTo {
        assert fragments[i - 1].to > fragments[i].from;
        return Some(OutOfOrder);
      }
      previousTo := f.to;
    }
    assert fragments[..|fragments|] == fragments;
    why := None;
  }

  ghost predicate Readable(fragments: seq<Fragment>) {
    forall i :: 0 <= i < |fragments| && fragments[i].archive.Some? ==>
                  AllRuns(fragments[i].archive.value.directories, fragments[i].archive.value.data)
  }

  ghost function RunsOf(f: Fragment): (runs: seq<TileRun>)
    requires f.archive.Some? ==> AllRuns(f.archive.value.directories, f.archive.value.data)
    ensures Counted(runs)
  {
    if f.archive.None? then [] else RunsOfDirectories(f.archive.value.directories, f.archive.value.data)
  }

  ghost function RunsOfFragments(fragments: seq<Fragment>): (runs: seq<TileRun>)
    requires Readable(fragments)
    ensures Counted(runs)
  {
    if fragments == [] then []
    else RunsOfFragments(fragments[..|fragments| - 1]) + RunsOf(fragments[|fragments| - 1])
  }

  /** The fragment has something to say about what its tiles are. */
  ghost predicate Shows(f: Fragment) {
    f.archive.Some? && f.archive.value.directories != []
  }

  ghost predicate Agree(fragments: seq<Fragment>) {
    forall i, j :: 0 <= i < |fragments| && 0 <= j < |fragments| && Shows(fragments[i]) && Shows(fragments[j]) ==>
                     fragments[i].archive.value.kind == fragments[j].archive.value.kind
  }

  ghost predicate HoldsItsOwn(f: Fragment) {
    f.archive.Some? ==> AllHeld(f.archive.value.directories, f.from, f.to)
  }

  ghost predicate AllHoldTheirOwn(fragments: seq<Fragment>) {
    forall i :: 0 <= i < |fragments| ==> HoldsItsOwn(fragments[i])
  }

  /** What the first fragments have shown their tiles to be. */
  ghost predicate Shown(fragments: seq<Fragment>, n: nat, kind: Option<Kind>)
    requires n <= |fragments|
  {
    && (forall i :: 0 <= i < n && Shows(fragments[i]) ==> kind == Some(fragments[i].archive.value.kind))
    && (kind.Some? ==> exists i :: 0 <= i < n && Shows(fragments[i]))
  }

  ghost predicate HoldUpTo(fragments: seq<Fragment>, n: nat)
    requires n <= |fragments|
  {
    forall i :: 0 <= i < n ==> HoldsItsOwn(fragments[i])
  }

  lemma FragmentsOneMore(fragments: seq<Fragment>, i: nat)
    requires i < |fragments| && Readable(fragments)
    ensures Readable(fragments[..i]) && Readable(fragments[..i + 1])
    ensures RunsOfFragments(fragments[..i + 1]) == RunsOfFragments(fragments[..i]) + RunsOf(fragments[i])
  {
    assert fragments[..i + 1][..i] == fragments[..i];
  }

  lemma RunsOneMore(fragments: seq<Fragment>, i: nat, runs: seq<TileRun>)
    requires i < |fragments| && Readable(fragments) && Readable(fragments[..i]) &&
             runs == RunsOfFragments(fragments[..i])
    ensures Readable(fragments[..i + 1]) && Counted(runs)
    ensures var a := fragments[i].archive;
            if a.None? then RunsOfFragments(fragments[..i + 1]) == runs
            else AllRuns(a.value.directories, a.value.data) &&
                 RunsOfFragments(fragments[..i + 1]) == runs + RunsOfDirectories(a.value.directories, a.value.data)
  {
    FragmentsOneMore(fragments, i);
    hide RunsOfFragments, AllRuns, RunsOfDirectories;
  }

  lemma EmptyAddsNothing(fragments: seq<Fragment>, i: nat, kind: Option<Kind>)
    requires i < |fragments| && fragments[i].archive.None? && Shown(fragments, i, kind) && HoldUpTo(fragments, i)
    ensures Shown(fragments, i + 1, kind) && HoldUpTo(fragments, i + 1)
    ensures RunsOf(fragments[i]) == []
  {
  }

  lemma AcceptedAdds(fragments: seq<Fragment>, i: nat, kind: Option<Kind>, now: Option<Kind>)
    requires i < |fragments| && fragments[i].archive.Some? && Shown(fragments, i, kind) && HoldUpTo(fragments, i)
    requires OfKind(kind, fragments[i].archive.value)
    requires AllHeld(fragments[i].archive.value.directories, fragments[i].from, fragments[i].to)
    requires now == if fragments[i].archive.value.directories == [] then kind else Some(fragments[i].archive.value.kind)
    ensures Shown(fragments, i + 1, now) && HoldUpTo(fragments, i + 1)
  {
    hide AllHeld;
    if now.Some? {
      assert kind.Some? || Shows(fragments[i]);
    }
  }

  lemma RefusedIsUnfit(fragments: seq<Fragment>, i: nat, kind: Option<Kind>, why: Refusal)
    requires i < |fragments| && fragments[i].archive.Some? && Shown(fragments, i, kind)
    requires why.Disagree? || why.Outside?
    requires why.Disagree? ==> !OfKind(kind, fragments[i].archive.value)
    requires why.Outside? ==> !AllHeld(fragments[i].archive.value.directories, fragments[i].from, fragments[i].to)
    ensures IsReason(fragments, why) && (!Agree(fragments) || !AllHoldTheirOwn(fragments))
  {
    hide AllHeld;
    if AllHoldTheirOwn(fragments) {
      assert HoldsItsOwn(fragments[i]) && Shows(fragments[i]);
    }
    if why.Disagree? {
      var j :| 0 <= j < i && Shows(fragments[j]);
      assert Shows(fragments[i]) && fragments[j].archive.value.kind != fragments[i].archive.value.kind;
    }
  }

  lemma AllAccepted(fragments: seq<Fragment>, kind: Option<Kind>)
    requires Shown(fragments, |fragments|, kind) && HoldUpTo(fragments, |fragments|)
    ensures Agree(fragments) && AllHoldTheirOwn(fragments)
  {
  }

  /** Every fragment's tiles are appended, in order, up to the first that is refused. */
  method AppendFragments(writer: PMTilesWriter, fragments: seq<Fragment>)
    returns (why: Option<Refusal>, kind: Option<Kind>, used: nat)
    requires writer.Valid() && Readable(fragments)
    modifies writer, writer.handle
    ensures why.None? <==> Agree(fragments) && AllHoldTheirOwn(fragments)
    ensures why.None? ==> HasWritten(writer, old(writer.State()), RunsOfFragments(fragments))
    ensures why.None? ==> Shown(fragments, |fragments|, kind) && used == Archives(fragments)
    ensures why.Some? ==> IsReason(fragments, why.value)
  {
    kind, used, why := None, 0, None;
    ghost var start := writer.State();
    StartsShowing(start, fragments);
    assert fragments[..|fragments|] == fragments;
    hide *;
    for i := 0 to |fragments|
      invariant why.None? && Shown(fragments, i, kind) && HoldUpTo(fragments, i) && used == Archives(fragments[..i])
      invariant start.Sound() && Readable(fragments[..i]) && HasWritten(writer, start, RunsOfFragments(fragments[..i]))
    {
      why, kind := AppendFragment(writer, fragments, i, kind, start);
      if why.Some? {
        return;
      }
      ArchivesOneMore(fragments, i);
      used := used + if fragments[i].archive.Some? then 1 else 0;
    }
    AllAccepted(fragments, kind);
  }

  /** How many of the fragments have an archive. */
  ghost function Archives(fragments: seq<Fragment>): nat {
    |set i | 0 <= i < |fragments| && fragments[i].archive.Some?|
  }

  lemma ArchivesOneMore(fragments: seq<Fragment>, i: nat)
    requires i < |fragments|
    ensures Archives(fragments[..i + 1]) ==
            Archives(fragments[..i]) + if fragments[i].archive.Some? then 1 else 0
  {
    var was, now := fragments[..i], fragments[..i + 1];
    var before, after := set k | 0 <= k < |was| && was[k].archive.Some?, set k | 0 <= k < |now| && now[k].archive.Some?;
    assert after == if fragments[i].archive.Some? then before + {i} else before;
  }

  lemma StartsShowing(start: Draft, fragments: seq<Fragment>)
    requires start.Sound()
    ensures Shown(fragments, 0, None) && HoldUpTo(fragments, 0) && Archives(fragments[..0]) == 0
    ensures Readable(fragments[..0]) && WrittenRuns(start, RunsOfFragments(fragments[..0])) == start
  {
  }

  /** One more fragment, unless it is empty or has to be refused. */
  method AppendFragment(writer: PMTilesWriter, fragments: seq<Fragment>, i: nat, kind: Option<Kind>, ghost start: Draft)
    returns (why: Option<Refusal>, now: Option<Kind>)
    requires i < |fragments| && Readable(fragments) && Shown(fragments, i, kind) && HoldUpTo(fragments, i)
    requires start.Sound() && Readable(fragments[..i]) && HasWritten(writer, start, RunsOfFragments(fragments[..i]))
    modifies writer, writer.handle
    ensures why.None? ==> Shown(fragments, i + 1, now) && HoldUpTo(fragments, i + 1)
    ensures why.None? ==> Readable(fragments[..i + 1]) && HasWritten(writer, start, RunsOfFragments(fragments[..i + 1]))
    ensures why.Some? ==> IsReason(fragments, why.value) && (!Agree(fragments) || !AllHoldTheirOwn(fragments))
  {
    var f := fragments[i];
    ghost var runs := RunsOfFragments(fragments[..i]);
    hide *;
    RunsOneMore(fragments, i, runs);
    if f.archive.None? {
      EmptyAddsNothing(fragments, i, kind);
      return None, kind;
    }
    why, now := AppendArchive(writer, f.archive.value, f.from, f.to, kind, start, runs);
    if why.Some? {
      RefusedIsUnfit(fragments, i, kind, why.value);
    } else {
      AcceptedAdds(fragments, i, kind, now);
    }
  }

  /**
   An archive a bake may well have written: its runs come one after the other, none empty, and what
   starts at one place is one thing.
   */
  ghost predicate Wholesome(entries: seq<Entry>) {
    && OneLength(entries)
    && (forall i :: 0 <= i < |entries| ==> 0 < entries[i].length)
    && (forall i, j :: 0 <= i < j < |entries| ==> entries[i].End() <= entries[j].tileId)
  }

  /** Runs with the tiles their entries have. */
  ghost function PlainRuns(entries: seq<Entry>, data: Bytes): (runs: seq<TileRun>)
    requires AreRuns(entries, data)
    ensures |runs| == |entries| && Counted(runs)
  {
    seq(|entries|, i requires 0 <= i < |entries| =>
        TileRun(entries[i].tileId, entries[i].runLength, entries[i].Data(data)))
  }

  lemma WholesomeReadsRight(entries: seq<Entry>, data: Bytes)
    requires AreRuns(entries, data) && OneLength(entries)
    ensures RunsRead(entries, data) == PlainRuns(entries, data)
  {
    ReadingIsRight(entries, data);
    hide DataRead;
  }

  lemma PartsAreWholesome(a: seq<Entry>, b: seq<Entry>)
    requires OneLength(a + b)
    ensures OneLength(a) && OneLength(b)
  {
    assert forall i :: 0 <= i < |a| ==> (a + b)[i] == a[i];
    forall i, j | 0 <= i < |b| && 0 <= j < |b| && b[i].offset == b[j].offset
      ensures b[i].length == b[j].length
    {
      assert (a + b)[|a| + i] == b[i] && (a + b)[|a| + j] == b[j];
    }
  }

  /** Read directory by directory, a wholesome archive's tiles are read as they are. */
  lemma {:induction false} DirectoriesReadRight(directories: seq<seq<Entry>>, data: Bytes)
    requires AllRuns(directories, data) && OneLength(Flat(directories))
    ensures AreRuns(Flat(directories), data) &&
            RunsOfDirectories(directories, data) == PlainRuns(Flat(directories), data)
  {
    if directories != [] {
      var n := |directories| - 1;
      PartsAreWholesome(Flat(directories[..n]), directories[n]);
      DirectoriesReadRight(directories[..n], data);
      WholesomeReadsRight(directories[n], data);
      hide RunsRead, OneLength;
    }
  }

  lemma {:induction false} PlainTiles(entries: seq<Entry>, data: Bytes)
    requires AreRuns(entries, data)
    ensures TilesIn(PlainRuns(entries, data)) == TilesOf(entries, data)
  {
    if entries != [] {
      var n := |entries| - 1;
      PlainTiles(entries[..n], data);
      assert PlainRuns(entries, data)[..n] == PlainRuns(entries[..n], data);
    }
  }

  /** Each fragment is empty or wholesome. */
  ghost predicate AllWholesome(fragments: seq<Fragment>) {
    forall i :: 0 <= i < |fragments| && fragments[i].archive.Some? ==>
      Wholesome(Flat(fragments[i].archive.value.directories))
  }

  /** What a fragment holds. */
  ghost function TilesOfFragment(f: Fragment): seq<Tile>
    requires f.archive.Some? ==> AreRuns(Flat(f.archive.value.directories), f.archive.value.data)
  {
    if f.archive.None? then [] else TilesOf(Flat(f.archive.value.directories), f.archive.value.data)
  }

  lemma {:induction false} FlatRuns(directories: seq<seq<Entry>>, data: Bytes)
    requires AllRuns(directories, data)
    ensures AreRuns(Flat(directories), data)
  {
    if directories != [] {
      FlatRuns(directories[..|directories| - 1], data);
    }
  }

  ghost function TilesOfFragments(fragments: seq<Fragment>): seq<Tile>
    requires Readable(fragments)
  {
    if fragments == [] then []
    else
      var last := fragments[|fragments| - 1];
      if last.archive.Some? then FlatRuns(last.archive.value.directories, last.archive.value.data);
        TilesOfFragments(fragments[..|fragments| - 1]) + TilesOfFragment(last)
      else TilesOfFragments(fragments[..|fragments| - 1])
  }

  ghost predicate RunsInside(runs: seq<TileRun>, from: int, to: int) {
    && (forall i :: 0 <= i < |runs| ==>
        from <= runs[i].tileId && runs[i].tileId + runs[i].count <= to && runs[i].data != [])
    && (forall i, j :: 0 <= i < j < |runs| ==> runs[i].tileId + runs[i].count <= runs[j].tileId)
  }

  lemma {:induction false} FlatIsInside(directories: seq<seq<Entry>>, from: nat, to: nat)
    requires AllHeld(directories, from, to)
    ensures AllInside(Flat(directories), from, to)
  {
    if directories != [] {
      var n := |directories| - 1;
      FlatIsInside(directories[..n], from, to);
      assert AllInside(directories[n], from, to);
    }
  }

  lemma PlainInside(entries: seq<Entry>, data: Bytes, from: nat, to: nat)
    requires AreRuns(entries, data) && AllInside(entries, from, to) && Wholesome(entries)
    ensures RunsInside(PlainRuns(entries, data), from, to)
  {
    hide OneLength;
  }

  lemma FragmentRuns(f: Fragment)
    requires f.archive.Some? ==> AllRuns(f.archive.value.directories, f.archive.value.data)
    requires f.archive.Some? ==> AreRuns(Flat(f.archive.value.directories), f.archive.value.data)
    requires HoldsItsOwn(f) && (f.archive.Some? ==> Wholesome(Flat(f.archive.value.directories)))
    ensures RunsInside(RunsOf(f), f.from, f.to) && TilesIn(RunsOf(f)) == TilesOfFragment(f)
  {
    if f.archive.Some? {
      var directories, data := f.archive.value.directories, f.archive.value.data;
      FlatIsInside(directories, f.from, f.to);
      DirectoriesReadRight(directories, data);
      PlainTiles(Flat(directories), data);
      PlainInside(Flat(directories), data, f.from, f.to);
      hide OneLength, AllHeld, AllRuns, Flat, RunsOfDirectories, RunsInside, AllInside, PlainRuns, Wholesome;
    }
  }

  lemma RunsInsideAdd(a: seq<TileRun>, b: seq<TileRun>, m: int, n: int, k: int)
    requires RunsInside(a, 0, m) && RunsInside(b, n, k) && m <= n <= k
    ensures RunsInside(a + b, 0, k)
  {
  }

  /** Appended in order, wholesome fragments' runs ascend and are their tiles. */
  lemma {:induction false} FragmentsRuns(fragments: seq<Fragment>)
    requires Readable(fragments) && InOrder(fragments) && AllHoldTheirOwn(fragments) && AllWholesome(fragments)
    ensures RunsInside(RunsOfFragments(fragments), 0, if fragments == [] then 0 else fragments[|fragments| - 1].to)
    ensures TilesIn(RunsOfFragments(fragments)) == TilesOfFragments(fragments)
  {
    if fragments != [] {
      var n := |fragments| - 1;
      var rest, last := fragments[..n], fragments[n];
      FragmentsRuns(rest);
      assert HoldsItsOwn(last);
      if last.archive.Some? {
        FlatRuns(last.archive.value.directories, last.archive.value.data);
      }
      FragmentRuns(last);
      hide HoldsItsOwn, Wholesome, RunsInside, AllRuns;
      RunsInsideAdd(RunsOfFragments(rest), RunsOf(last), if n == 0 then 0 else fragments[n - 1].to, last.from, last.to);
      TilesInAdds(RunsOfFragments(rest), RunsOf(last));
    }
  }

  /** A writer that has just been opened. */
  function Fresh(deduplicate: bool): Draft {
    Draft([], if deduplicate then Some(map[]) else None, [], 0, 0, true, -1)
  }

  lemma FreshIsEmpty(deduplicate: bool)
    ensures var a := Fresh(deduplicate); a.Sound() && a.Apart() && Tidy(a) && a.Tiles() == []
  {
    assert Fresh(deduplicate).ApartBy(map[]);
  }

  lemma {:induction false} RunsMakeEntries(a: Draft, runs: seq<TileRun>)
    requires a.Sound() && a.entries == [] && Counted(runs)
    ensures WrittenRuns(a, runs).entries == [] <==> runs == []
  {
    if runs != [] {
      var n := |runs| - 1;
      WrittenHasAnEntry(WrittenRuns(a, runs[..n]), runs[n].tileId, runs[n].data);
      hide Draft.Sound, Draft.Written;
    }
  }

  /** What assembling wholesome fragments leaves in the writer: their tiles, in order. */
  lemma AssembledIsWhole(fragments: seq<Fragment>, deduplicate: bool)
    requires Readable(fragments) && InOrder(fragments) && AllHoldTheirOwn(fragments) && AllWholesome(fragments)
    ensures Fresh(deduplicate).Sound()
    ensures var w := WrittenRuns(Fresh(deduplicate), RunsOfFragments(fragments));
            && w.Tiles() == TilesOfFragments(fragments) && w.addressed == |TilesOfFragments(fragments)| && w.clustered
            && Ascends(w.entries, EarlierEntry) && OneLength(w.entries)
            && NoEmptyRuns(w.entries)
  {
    var runs := RunsOfFragments(fragments);
    FreshIsEmpty(deduplicate);
    FragmentsRuns(fragments);
    assert RunsAscend(runs, -1) && forall i :: 0 <= i < |runs| ==> runs[i].data != [];
    assert [] + TilesIn(runs) == TilesIn(runs);
    hide RunsInside, RunsAscend, RunsOfFragments, AllWholesome, AllHoldTheirOwn, Draft.Sound, Draft.Apart, WrittenRuns,
      Draft.Tiles;
    RunsAppend(Fresh(deduplicate), runs);
  }

  lemma {:induction false} RunsKeepEachKnown(a: Draft, runs: seq<TileRun>)
    requires a.Sound() && EachKnown(a) && Counted(runs)
    ensures EachKnown(WrittenRuns(a, runs))
  {
    if runs != [] {
      var n := |runs| - 1;
      var before, last := WrittenRuns(a, runs[..n]), runs[n];
      RunsKeepEachKnown(a, runs[..n]);
      WritingKeepsEachKnown(before, last.tileId, last.data);
      RunAppends(before, last.tileId, last.count, last.data);
      LongerKeepsEachKnown(before, last.tileId, last.count, last.data);
    }
  }

  lemma LongerKeepsEachKnown(a: Draft, tileId: nat, count: nat, data: Bytes)
    requires a.Sound() && 1 <= count && EachKnown(a.Written(tileId, data))
    ensures EachKnown(WrittenRun(a, tileId, count, data))
  {
    WrittenHasAnEntry(a, tileId, data);
    var w, r := a.Written(tileId, data), WrittenRun(a, tileId, count, data);
    hide Draft.Written, Draft.Sound;
    if count > 1 {
      var n := |w.entries| - 1;
      assert KnownAs(w.seen.value, w.entries[n], w.bytes);
      assert KnownAs(w.seen.value, r.entries[n], w.bytes);
    }
    hide KnownAs;
  }

  /** There is something to write. */
  ghost predicate SomeTile(fragments: seq<Fragment>)
    requires Readable(fragments)
  {
    RunsOfFragments(fragments) != []
  }

  /** The archive is what is left in the writer after the fragments' runs, if that needs no sorting. */
  ghost predicate IsMadeOf(archive: PMTiles, fragments: seq<Fragment>, deduplicate: bool)
    requires Readable(fragments)
  {
    FreshIsEmpty(deduplicate);
    var w := WrittenRuns(Fresh(deduplicate), RunsOfFragments(fragments));
    Ascends(w.entries, EarlierEntry) ==> archive.entries == w.entries && archive.data == w.bytes[..w.dataBytes]
  }

  /** What the fragments that say anything say, and some do. */
  ghost predicate AllOfKind(fragments: seq<Fragment>, kind: Kind) {
    && (forall i :: 0 <= i < |fragments| && Shows(fragments[i]) ==> fragments[i].archive.value.kind == kind)
    && exists i :: 0 <= i < |fragments| && Shows(fragments[i])
  }

  lemma {:induction false} ATileShows(fragments: seq<Fragment>)
    requires Readable(fragments) && SomeTile(fragments)
    ensures exists i :: 0 <= i < |fragments| && Shows(fragments[i])
  {
    var n := |fragments| - 1;
    if RunsOf(fragments[n]) != [] {
      assert Shows(fragments[n]);
    } else {
      ATileShows(fragments[..n]);
      var i :| 0 <= i < n && Shows(fragments[..n][i]);
      assert Shows(fragments[i]);
    }
  }

  lemma KindIsTheirs(fragments: seq<Fragment>, kind: Option<Kind>)
    requires Readable(fragments) && SomeTile(fragments) && Shown(fragments, |fragments|, kind)
    ensures kind.Some? && AllOfKind(fragments, kind.value)
  {
    ATileShows(fragments);
    hide SomeTile, Readable;
  }

  /** However they come, every tile of every run is counted. */
  lemma {:induction false} RunsAreAddressed(a: Draft, runs: seq<TileRun>)
    requires a.Sound() && Counted(runs)
    ensures WrittenRuns(a, runs).addressed == a.addressed + |TilesIn(runs)|
  {
    if runs != [] {
      var n := |runs| - 1;
      RunsAreAddressed(a, runs[..n]);
      RunIsAddressed(WrittenRuns(a, runs[..n]), runs[n].tileId, runs[n].count, runs[n].data);
      hide Draft.Sound, WrittenRun;
    }
  }

  lemma RunIsAddressed(a: Draft, tileId: nat, count: nat, data: Bytes)
    requires a.Sound() && 1 <= count
    ensures WrittenRun(a, tileId, count, data).addressed == a.addressed + count
    ensures |Run(tileId, count, data)| == count
  {
    WrittenHasAnEntry(a, tileId, data);
    RunIsAsLong(tileId, count, data);
    hide Draft.Sound;
  }

  /**
   Appends finished shards into one archive. It is made exactly when the
   fragments come in order, agree about what their tiles are, hold no tile
   outside their own shard, and between them hold one at all; and then, where
   each is wholesome, it holds their tiles, one fragment's after another's, and
   is clustered without anything having been sorted.
   */
  method AssembleFragments(fragments: seq<Fragment>, deduplicate: bool) returns (r: Assembly)
    requires Readable(fragments)
    ensures r.Assembled? <==>
            InOrder(fragments) && Agree(fragments) && AllHoldTheirOwn(fragments) && SomeTile(fragments)
    ensures r.Assembled? && AllWholesome(fragments) ==>
              && r.archive.Valid() && r.archive.Tiles() == TilesOfFragments(fragments)
              && r.written == r.archive.addressed == |TilesOfFragments(fragments)| && r.archive.clustered
              && OneLength(r.archive.entries) && NoEmptyRuns(r.archive.entries)
    ensures r.Assembled? && deduplicate ==> r.archive.Valid() && StoredOnce(r.archive)
    ensures r.Assembled? ==> IsMadeOf(r.archive, fragments, deduplicate)
    ensures r.Assembled? ==> AllOfKind(fragments, r.kind) && r.fragments == Archives(fragments)
    ensures r.Assembled? ==> r.written == r.archive.addressed == |TilesIn(RunsOfFragments(fragments))|
    ensures r.Refused? ==> IsReason(fragments, r.why)
  {
    var why := CheckOrder(fragments);
    if why.Some? {
      return Refused(why.value);
    }
    var file := new File();
    var writer := new PMTilesWriter.Open(file, deduplicate);
    var kind, used;
    why, kind, used := AppendFragments(writer, fragments);
    if why.Some? {
      return Refused(why.value);
    }
    assert writer.State() == WrittenRuns(Fresh(deduplicate), RunsOfFragments(fragments));
    RunsMakeEntries(Fresh(deduplicate), RunsOfFragments(fragments));
    RunsAreAddressed(Fresh(deduplicate), RunsOfFragments(fragments));
    if |writer.entries| == 0 {
      return Refused(AllEmpty);
    }
    if AllWholesome(fragments) {
      AssembledIsWhole(fragments, deduplicate);
    }
    KindIsTheirs(fragments, kind);
    var archive := writer.Finalize();
    if deduplicate {
      RunsKeepEachKnown(Fresh(deduplicate), RunsOfFragments(fragments));
      forall e | e in archive.value.entries
        ensures e in writer.entries
      {
        assert e in multiset(archive.value.entries);
      }
      EachKnownStoredOnce(writer.State(), archive.value);
    }
    r := Assembled(archive.value, if kind.Some? then kind.value else UNKNOWN, writer.addressed, used);
  }
}
