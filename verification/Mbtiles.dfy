/**
 Listing an MBTiles archive's tiles in PMTiles order: a table kept in no order
 is read a block of tiles at a time, the blocks in curve order.
 */
module Mbtiles {
  import opened Powers
  import opened TileIds
  import opened Sorting

  /** Blocks of 2^8 tiles a side. */
  const BLOCK_BITS: nat := 8
  const SIDE: nat := 256

  /** Past this zoom the library refuses to number a tile. */
  const MAX_ZOOM: nat := 26

  /** A row of the tiles table. Rows are counted from the south. */
  datatype Row = Row(zoom: nat, column: nat, row: nat) {
    predicate OnMap() {
      zoom <= MAX_ZOOM && column < Pow2(zoom) && row < Pow2(zoom)
    }

    /** The row counted from the north, as everything else counts it. */
    function Y(): (y: nat)
      requires OnMap()
      ensures y < Pow2(zoom)
    {
      Pow2(zoom) - 1 - row
    }

    function Id(): nat
      requires OnMap()
    {
      TileId(zoom, column, Y())
    }

    /** The row is of this tile: as far from the south as the tile is from the north. */
    predicate Shows(t: Zxy) {
      t.z == zoom && t.x == column && t.y + row + 1 == Pow2(zoom)
    }
  }

  lemma IdIsOfTheTile(r: Row, id: nat)
    requires r.OnMap()
    ensures r.Id() == id <==> r.Shows(ZxyOf(id))
  {
    TilesAreIds(r.zoom, r.column, r.Y());
    IdsAreTiles(id);
    hide TileId, ZxyOf;
  }

  predicate IdAtMost(a: nat, b: nat) {
    a <= b
  }

  /** The rows a condition holds of, in whatever order the table keeps them. */
  function Where(rows: seq<Row>, condition: Row -> bool): seq<Row> {
    if rows == [] then []
    else
      var rest := Where(rows[..|rows| - 1], condition);
      if condition(rows[|rows| - 1]) then rest + [rows[|rows| - 1]] else rest
  }

  lemma {:induction false} WhereHolds(rows: seq<Row>, condition: Row -> bool)
    ensures forall r :: r in Where(rows, condition) <==> r in rows && condition(r)
    ensures NoRepeats(rows) ==> NoRepeats(Where(rows, condition))
  {
    if rows != [] {
      WhereHolds(rows[..|rows| - 1], condition);
      assert rows == rows[..|rows| - 1] + [rows[|rows| - 1]];
    }
  }

  /** The ids of some rows that lie in the run, before they are sorted. */
  function Picked(rows: seq<Row>, from: nat, to: Limit): seq<nat>
    requires forall r :: r in rows ==> r.OnMap()
  {
    if rows == [] then []
    else
      var rest, id := Picked(rows[..|rows| - 1], from, to), rows[|rows| - 1].Id();
      if from <= id && to.Allows(id) then rest + [id] else rest
  }

  lemma {:induction false} PickedHolds(rows: seq<Row>, from: nat, to: Limit)
    requires NoRepeats(rows) && forall r :: r in rows ==> r.OnMap()
    ensures forall id: nat :: id in Picked(rows, from, to) <==>
              from <= id && to.Allows(id) && exists r :: r in rows && r.Id() == id
    ensures NoRepeats(Picked(rows, from, to))
  {
    hide TileId, Pow2;
    if rows != [] {
      var rest, last := rows[..|rows| - 1], rows[|rows| - 1];
      PickedHolds(rest, from, to);
      assert rows == rest + [last];
      forall r | r in rest
        ensures r.Id() != last.Id()
      {
        IdsTellRowsApart(r, last);
      }
    }
  }

  lemma IdsTellRowsApart(a: Row, b: Row)
    requires a.OnMap() && b.OnMap()
    ensures a.Id() == b.Id() ==> a == b
  {
    hide TileId, Pow2;
    if a.Id() == b.Id() {
      TileIdIsInjective(a.zoom, a.column, a.Y(), b.zoom, b.column, b.Y());
    }
  }

  /** Rows as ascending tile ids, narrowed to the run. */
  function IdsOf(rows: seq<Row>, from: nat, to: Limit): seq<nat>
    requires forall r :: r in rows ==> r.OnMap()
  {
    Sort(Picked(rows, from, to), IdAtMost)
  }

  lemma IdsOfClimbs(rows: seq<Row>, from: nat, to: Limit)
    requires NoRepeats(rows) && forall r :: r in rows ==> r.OnMap()
    ensures Climbs(IdsOf(rows, from, to))
    ensures forall id: nat :: id in IdsOf(rows, from, to) <==>
              from <= id && to.Allows(id) && exists r :: r in rows && r.Id() == id
  {
    var picked := Picked(rows, from, to);
    PickedHolds(rows, from, to);
    SortAscends(picked, IdAtMost);
    SortKeepsApart(picked, IdAtMost);
    forall id: nat
      ensures id in Sort(picked, IdAtMost) <==> id in picked
    {
      SortHasTheSame(picked, IdAtMost, id);
    }
  }

  /** A block of tiles: its column and row, counting blocks from the north-west, and the first id within it. */
  datatype Block = Block(column: nat, row: nat, first: nat)

  /** The first id of a block of a zoom: the blocks are themselves the tiles of a zoom eight levels up. */
  function FirstIn(z: nat, column: nat, row: nat): nat
    requires BLOCK_BITS < z && column < Pow2(z - BLOCK_BITS) && row < Pow2(z - BLOCK_BITS)
  {
    var k := z - BLOCK_BITS;
    var place: nat, span := TileId(k, column, row) - FirstIdAt(k), TilesAt(BLOCK_BITS);
    FirstIdAt(z) + place * span
  }

  lemma BlockSizes()
    ensures Pow2(BLOCK_BITS) == SIDE
    ensures TilesAt(BLOCK_BITS) == SIDE * SIDE
  {
    assert Pow2(4) == 16;
    Pow2Adds(4, 4);
    assert TilesAt(4) == 256;
    TilesMultiply(4, 4);
  }

  /** A tile's block, and its place in that block's run of ids. */
  lemma TileIsInItsBlock(r: Row)
    requires r.OnMap() && BLOCK_BITS < r.zoom
    ensures var k := r.zoom - BLOCK_BITS;
            && r.column / SIDE < Pow2(k) && r.Y() / SIDE < Pow2(k)
            && FirstIn(r.zoom, r.column / SIDE, r.Y() / SIDE) <= r.Id()
            && r.Id() < FirstIn(r.zoom, r.column / SIDE, r.Y() / SIDE) + TilesAt(BLOCK_BITS)
  {
    hide Hilbert, TilesAt;
    var k, x, y := r.zoom - BLOCK_BITS, r.column / SIDE, r.Y() / SIDE;
    BlockSizes();
    Pow2Adds(k, BLOCK_BITS);
    QuotientBelow(r.column, Pow2(k), SIDE);
    QuotientBelow(r.Y(), Pow2(k), SIDE);
    TimesIsProduct(x, SIDE);
    TimesIsProduct(y, SIDE);
    DescendantsAreOneRun(k, BLOCK_BITS, x, y, r.column, r.Y());
    TimesIsProduct(Hilbert(k, x, y), TilesAt(BLOCK_BITS));
  }

  lemma FirstInIs(z: nat, column: nat, row: nat)
    requires BLOCK_BITS < z && column < Pow2(z - BLOCK_BITS) && row < Pow2(z - BLOCK_BITS)
    ensures FirstIn(z, column, row) == FirstIdAt(z) + Hilbert(z - BLOCK_BITS, column, row) * TilesAt(BLOCK_BITS)
  {
    hide Hilbert, TilesAt;
  }

  lemma OnePlace(base: nat, q: nat, q': nat, n: nat, id: nat)
    requires base + q * n <= id && id < base + q' * n + n
    ensures q <= q'
  {
    assert (q' + 1) * n == q' * n + n;
    if q' < q {
      ProductsAscend(q' + 1, q, n);
    }
  }

  /** Two blocks of one zoom share no id. */
  lemma BlocksAreApart(z: nat, column: nat, row: nat, column': nat, row': nat, id: nat)
    requires BLOCK_BITS < z
    requires column < Pow2(z - BLOCK_BITS) && row < Pow2(z - BLOCK_BITS)
    requires column' < Pow2(z - BLOCK_BITS) && row' < Pow2(z - BLOCK_BITS)
    requires FirstIn(z, column, row) <= id < FirstIn(z, column, row) + TilesAt(BLOCK_BITS)
    requires FirstIn(z, column', row') <= id < FirstIn(z, column', row') + TilesAt(BLOCK_BITS)
    ensures column == column' && row == row'
  {
    var k, n := z - BLOCK_BITS, TilesAt(BLOCK_BITS);
    var q, q' := Hilbert(k, column, row), Hilbert(k, column', row');
    FirstInIs(z, column, row);
    FirstInIs(z, column', row');
    hide *;
    OnePlace(FirstIdAt(z), q, q', n, id);
    OnePlace(FirstIdAt(z), q', q, n, id);
    HilbertIsInjective(k, column, row, column', row');
  }

  predicate FirstAtMost(a: Block, b: Block) {
    a.first <= b.first
  }

  class MbtilesArchive {
    const tiles: seq<Row>

    constructor (tiles: seq<Row>)
      ensures this.tiles == tiles
    {
      this.tiles := tiles;
    }

    /** What the table is relied on for: rows on the map, and no tile stored twice. */
    ghost predicate Valid() {
      NoRepeats(tiles) && forall r :: r in tiles ==> r.OnMap()
    }

    /** The archive holds this id, and it lies in the run. */
    ghost predicate Wanted(id: nat, from: nat, to: Limit)
      requires Valid()
    {
      from <= id && to.Allows(id) && exists r :: r in tiles && r.Id() == id
    }

    /** `out` is exactly what the archive holds of the run below `bound`, in order. */
    ghost predicate Swept(out: seq<nat>, bound: nat, from: nat, to: Limit)
      requires Valid()
    {
      Climbs(out) && forall id: nat :: id in out <==> id < bound && Wanted(id, from, to)
    }

    lemma SweepsOn(out: seq<nat>, bound: nat, chunk: seq<nat>, next: nat, from: nat, to: Limit)
      requires Valid() && Swept(out, bound, from, to) && bound <= next && Climbs(chunk)
      requires forall id: nat :: id in chunk <==> bound <= id < next && Wanted(id, from, to)
      ensures Swept(out + chunk, next, from, to)
    {
      var all := out + chunk;
      forall i, j | 0 <= i < j < |all|
        ensures all[i] < all[j]
      {
        if i < |out| <= j {
          assert out[i] in out && chunk[j - |out|] in chunk;
        }
      }
    }

    /** Nothing is wanted in a stretch of ids, so the sweep moves past it. */
    lemma SweepsPast(out: seq<nat>, bound: nat, next: nat, from: nat, to: Limit)
      requires Valid() && Swept(out, bound, from, to) && bound <= next
      requires forall id: nat :: bound <= id < next ==> !Wanted(id, from, to)
      ensures Swept(out, next, from, to)
    {
    }

    /** SELECT DISTINCT zoom_level ... ORDER BY z. */
    function Zooms(below: nat): seq<nat> {
      if below == 0 then []
      else if exists r :: r in tiles && r.zoom == below - 1 then Zooms(below - 1) + [below - 1]
      else Zooms(below - 1)
    }

    lemma {:induction false} ZoomsHold(below: nat)
      ensures Climbs(Zooms(below))
      ensures forall z: nat :: z in Zooms(below) <==> z < below && exists r :: r in tiles && r.zoom == z
    {
      if below > 0 {
        ZoomsHold(below - 1);
        var zooms := Zooms(below - 1);
        assert forall i :: 0 <= i < |zooms| ==> zooms[i] in zooms;
      }
    }

    function AtZoom(z: nat): seq<Row> {
      Where(tiles, (r: Row) => r.zoom == z)
    }

    /** The rows of a block: columns and south-counted rows between two bounds. */
    function InBlock(z: nat, x0: int, x1: int, r0: int, r1: int): seq<Row> {
      Where(tiles, (r: Row) => r.zoom == z && x0 <= r.column <= x1 && r0 <= r.row <= r1)
    }

    /** The smallest and largest column and row a zoom's tiles reach. */
    method ExtentOf(z: nat) returns (x0: nat, x1: nat, r0: nat, r1: nat)
      requires Valid() && exists r :: r in tiles && r.zoom == z
      ensures forall r :: r in tiles && r.zoom == z ==> x0 <= r.column <= x1 && r0 <= r.row <= r1
      ensures x1 < Pow2(z) && r1 < Pow2(z)
    {
      var rows := AtZoom(z);
      WhereHolds(tiles, (r: Row) => r.zoom == z);
      var some: Row :| some in tiles && some.zoom == z;
      assert some in rows;
      x0, x1, r0, r1 := rows[0].column, rows[0].column, rows[0].row, rows[0].row;
      assert rows[0] in rows;
      for i := 1 to |rows|
        invariant forall j :: 0 <= j < i ==> x0 <= rows[j].column <= x1 && r0 <= rows[j].row <= r1
        invariant x1 < Pow2(z) && r1 < Pow2(z)
      {
        var r := rows[i];
        assert r in rows;
        x0, x1 := if r.column < x0 then r.column else x0, if r.column > x1 then r.column else x1;
        r0, r1 := if r.row < r0 then r.row else r0, if r.row > r1 then r.row else r1;
      }
    }

    /** The block is a place on its zoom's map, with the id run of that place. */
    ghost predicate Placed(z: nat, b: Block)
      requires BLOCK_BITS < z
    {
      b.column < Pow2(z - BLOCK_BITS) && b.row < Pow2(z - BLOCK_BITS) && b.first == FirstIn(z, b.column, b.row)
    }

    /** A block with nothing wanted in it may be left out; every other block is listed once. */
    ghost predicate Lists(z: nat, blocks: seq<Block>, from: nat, to: Limit)
      requires Valid() && BLOCK_BITS < z
    {
      && NoRepeats(blocks)
      && (forall b :: b in blocks ==> Placed(z, b))
      && (forall r :: r in tiles && r.zoom == z && Wanted(r.Id(), from, to) ==> exists b :: b in blocks && Holds(b, r))
    }

    ghost predicate Holds(b: Block, r: Row)
      requires r.OnMap()
    {
      r.column / SIDE == b.column && r.Y() / SIDE == b.row
    }

    /** Only the blocks the zoom's tiles reach, and of those only the ones the run does. */
    method GatherBlocks(z: nat, from: nat, to: Limit) returns (blocks: seq<Block>)
      requires Valid() && BLOCK_BITS < z && exists r :: r in tiles && r.zoom == z
      ensures Lists(z, blocks, from, to)
    {
      hide FirstIdAt, TilesAt, Hilbert, TileId;
      var x0, x1, r0, r1 := ExtentOf(z);
      var maxRow := Pow2(z) - 1;
      var k := z - BLOCK_BITS;
      Pow2Adds(k, BLOCK_BITS);
      BlockSizes();
      QuotientBelow(x1, Pow2(k), SIDE);
      QuotientBelow(maxRow - r0, Pow2(k), SIDE);
      var bx0, bx1 := x0 / SIDE, x1 / SIDE;
      var by0, by1 := (maxRow - r1) / SIDE, (maxRow - r0) / SIDE;
      blocks := [];
      for bx := bx0 to bx1 + 1
        invariant NoRepeats(blocks) && forall b :: b in blocks ==> Placed(z, b) && b.column < bx
        invariant forall x: nat, y: nat :: bx0 <= x < bx && by0 <= y <= by1 && Reaches(z, x, y, from, to) ==>
          Block(x, y, FirstIn(z, x, y)) in blocks
      {
        blocks := GatherColumn(z, bx, by0, by1, from, to, blocks);
      }
      forall r | r in tiles && r.zoom == z && Wanted(r.Id(), from, to)
        ensures exists b :: b in blocks && Holds(b, r)
      {
        TileIsInItsBlock(r);
        DivisionAscends(x0, r.column, SIDE);
        DivisionAscends(r.column, x1, SIDE);
        DivisionAscends(maxRow - r1, r.Y(), SIDE);
        DivisionAscends(r.Y(), maxRow - r0, SIDE);
        var b := Block(r.column / SIDE, r.Y() / SIDE, FirstIn(z, r.column / SIDE, r.Y() / SIDE));
        assert Reaches(z, b.column, b.row, from, to);
        assert b in blocks && Holds(b, r);
      }
    }

    /** The run reaches into the block. */
    predicate Reaches(z: nat, column: nat, row: nat, from: nat, to: Limit) {
      && BLOCK_BITS < z && column < Pow2(z - BLOCK_BITS) && row < Pow2(z - BLOCK_BITS)
      && !(FirstIn(z, column, row) + TilesAt(BLOCK_BITS) <= from || !to.Allows(FirstIn(z, column, row)))
    }

    method GatherColumn(z: nat, bx: nat, by0: nat, by1: nat, from: nat, to: Limit, before: seq<Block>)
      returns (blocks: seq<Block>)
      requires BLOCK_BITS < z && bx < Pow2(z - BLOCK_BITS) && by1 < Pow2(z - BLOCK_BITS)
      requires NoRepeats(before) && forall b :: b in before ==> Placed(z, b) && b.column < bx
      ensures NoRepeats(blocks) && forall b :: b in blocks ==> Placed(z, b) && b.column < bx + 1
      ensures forall b :: b in before ==> b in blocks
      ensures forall y: nat :: by0 <= y <= by1 && Reaches(z, bx, y, from, to) ==>
              Block(bx, y, FirstIn(z, bx, y)) in blocks
    {
      hide FirstIn, TilesAt, Pow2;
      blocks := before;
      var by' := by0;
      while by' <= by1
        invariant NoRepeats(blocks) && by0 <= by'
        invariant forall b :: b in blocks ==> Placed(z, b) && (b.column < bx || (b.column == bx && b.row < by'))
        invariant forall b :: b in before ==> b in blocks
        invariant forall y: nat :: by0 <= y <= by1 && y < by' && Reaches(z, bx, y, from, to) ==>
                  Block(bx, y, FirstIn(z, bx, y)) in blocks
      {
        var first := FirstIn(z, bx, by');
        if !(first + TilesAt(BLOCK_BITS) <= from || !to.Allows(first)) {
          blocks := blocks + [Block(bx, by', first)];
        }
        by' := by' + 1;
      }
    }

    /** A block's rows, read and sorted on their own, are what is wanted of its run of ids. */
    lemma BlockIsItsRun(z: nat, b: Block, rows: seq<Row>, from: nat, to: Limit)
      requires Valid() && BLOCK_BITS < z && Placed(z, b) && NoRepeats(rows)
      requires forall r :: r in rows <==> r in tiles && r.zoom == z && Holds(b, r)
      ensures Climbs(IdsOf(rows, from, to))
      ensures forall id: nat :: id in IdsOf(rows, from, to) <==>
                b.first <= id < b.first + TilesAt(BLOCK_BITS) && Wanted(id, from, to)
    {
      hide FirstIn, Hilbert, TilesAt, Pow2;
      IdsOfClimbs(rows, from, to);
      forall id: nat | id in IdsOf(rows, from, to)
        ensures b.first <= id < b.first + TilesAt(BLOCK_BITS) && Wanted(id, from, to)
      {
        var r :| r in rows && r.Id() == id;
        TileIsInItsBlock(r);
      }
      forall id: nat | b.first <= id < b.first + TilesAt(BLOCK_BITS) && Wanted(id, from, to)
        ensures id in IdsOf(rows, from, to)
      {
        var r :| r in tiles && r.Id() == id;
        BlockHoldsItsIds(z, b, r);
        assert r in rows;
      }
    }

    /** A tile whose id lies in a block's run lies in the block. */
    lemma BlockHoldsItsIds(z: nat, b: Block, r: Row)
      requires BLOCK_BITS < z && Placed(z, b) && r.OnMap()
      requires b.first <= r.Id() < b.first + TilesAt(BLOCK_BITS)
      ensures r.zoom == z && Holds(b, r)
    {
      hide Hilbert, TilesAt, Pow2;
      RunIsInItsZoom(z, b);
      if r.zoom < z {
        ZoomsAscend(r.zoom + 1, z);
      } else if r.zoom > z {
        ZoomsAscend(z + 1, r.zoom);
      } else {
        TileIsInItsBlock(r);
        BlocksAreApart(z, b.column, b.row, r.column / SIDE, r.Y() / SIDE, r.Id());
      }
    }

    lemma RunIsInItsZoom(z: nat, b: Block)
      requires BLOCK_BITS < z && Placed(z, b)
      ensures FirstIdAt(z) <= b.first && b.first + TilesAt(BLOCK_BITS) <= FirstIdAt(z + 1)
    {
      hide Hilbert, TilesAt;
      var k := z - BLOCK_BITS;
      ZoomsAbut(z);
      TilesMultiply(k, BLOCK_BITS);
      var h, n := Hilbert(k, b.column, b.row), TilesAt(BLOCK_BITS);
      ProductsAscend(h + 1, TilesAt(k), n);
      assert (h + 1) * n == h * n + n;
    }

    /** Sorted by their first ids, blocks follow one another without overlapping. */
    lemma SortedBlocksFollow(z: nat, blocks: seq<Block>, sorted: seq<Block>)
      requires BLOCK_BITS < z && NoRepeats(blocks) && (forall b :: b in blocks ==> Placed(z, b))
      requires sorted == Sort(blocks, FirstAtMost)
      ensures forall b :: b in sorted <==> b in blocks
      ensures forall i, j :: 0 <= i < j < |sorted| ==> sorted[i].first + TilesAt(BLOCK_BITS) <= sorted[j].first
    {
      SortAscends(blocks, FirstAtMost);
      SortKeepsApart(blocks, FirstAtMost);
      forall b
        ensures b in sorted <==> b in blocks
      {
        SortHasTheSame(blocks, FirstAtMost, b);
      }
      forall i, j | 0 <= i < j < |sorted|
        ensures sorted[i].first + TilesAt(BLOCK_BITS) <= sorted[j].first
      {
        var a, b := sorted[i], sorted[j];
        assert a in sorted && b in sorted && FirstAtMost(a, b);
        if b.first < a.first + TilesAt(BLOCK_BITS) {
          BlocksAreApart(z, a.column, a.row, b.column, b.row, b.first);
        }
      }
    }

    /** Between one block of the sweep and the next nothing is wanted. */
    lemma NothingBetweenBlocks(z: nat, sorted: seq<Block>, j: nat, id: nat, from: nat, to: Limit)
      requires Valid() && BLOCK_BITS < z && j <= |sorted| && Lists(z, sorted, from, to)
      requires forall i, j :: 0 <= i < j < |sorted| ==> sorted[i].first + TilesAt(BLOCK_BITS) <= sorted[j].first
      requires FirstIdAt(z) <= id < FirstIdAt(z + 1)
      requires j > 0 ==> sorted[j - 1].first + TilesAt(BLOCK_BITS) <= id
      requires j < |sorted| ==> id < sorted[j].first
      ensures !Wanted(id, from, to)
    {
      hide FirstIn, Hilbert, TilesAt, Pow2;
      forall b | b in sorted
        ensures !(b.first <= id < b.first + TilesAt(BLOCK_BITS))
      {
        var i :| 0 <= i < |sorted| && sorted[i] == b;
        if i < j - 1 {
          assert sorted[i].first + TilesAt(BLOCK_BITS) <= sorted[j - 1].first;
        } else if i > j {
          assert sorted[j].first + TilesAt(BLOCK_BITS) <= sorted[i].first;
        }
      }
      if Wanted(id, from, to) {
        var r :| r in tiles && r.Id() == id;
        IdIsOfItsZoom(r, z);
        var b :| b in sorted && Holds(b, r);
        TileIsInItsBlock(r);
      }
    }

    lemma IdIsInItsZoom(r: Row)
      requires r.OnMap()
      ensures FirstIdAt(r.zoom) <= r.Id() < FirstIdAt(r.zoom + 1)
    {
      hide FirstIdAt, TilesAt, Hilbert, TileId;
    }

    lemma IdIsOfItsZoom(r: Row, z: nat)
      requires r.OnMap() && FirstIdAt(z) <= r.Id() < FirstIdAt(z + 1)
      ensures r.zoom == z
    {
      hide *;
      IdIsInItsZoom(r);
      if r.zoom < z {
        ZoomsAscend(r.zoom + 1, z);
      } else if r.zoom > z {
        ZoomsAscend(z + 1, r.zoom);
      }
    }

    /** One block of a deep zoom: its rows, as ids. */
    method SweepBlock(z: nat, b: Block, from: nat, to: Limit) returns (ids: seq<nat>)
      requires Valid() && BLOCK_BITS < z && Placed(z, b)
      ensures Climbs(ids)
      ensures forall id: nat :: id in ids <==> b.first <= id < b.first + TilesAt(BLOCK_BITS) && Wanted(id, from, to)
    {
      var maxRow := Pow2(z) - 1;
      var x0, y0 := b.column * SIDE, b.row * SIDE;
      var side := SIDE - 1;
      var rows := InBlock(z, x0, x0 + side, maxRow - (y0 + side), maxRow - y0);
      WhereHolds(tiles, (r: Row) => r.zoom == z && x0 <= r.column <= x0 + side &&
                 maxRow - (y0 + side) <= r.row <= maxRow - y0);
      forall r | r in tiles && r.zoom == z
        ensures r in rows <==> Holds(b, r)
      {
        InRunOfMultiples(r.column, b.column);
        InRunOfMultiples(r.Y(), b.row);
      }
      BlockIsItsRun(z, b, rows, from, to);
      ids := IdsOf(rows, from, to);
    }

    lemma InRunOfMultiples(x: nat, q: nat)
      ensures q * SIDE <= x <= q * SIDE + (SIDE - 1) <==> x / SIDE == q
    {
    }

    /** A deep zoom, a block at a time in curve order. */
    method SweepBlocks(z: nat, from: nat, to: Limit, before: seq<seq<nat>>) returns (chunks: seq<seq<nat>>)
      requires Valid() && BLOCK_BITS < z && exists r :: r in tiles && r.zoom == z
      requires Swept(Flat(before), FirstIdAt(z), from, to) && forall c :: c in before ==> c != []
      ensures Swept(Flat(chunks), FirstIdAt(z + 1), from, to) && forall c :: c in chunks ==> c != []
    {
      hide FirstIdAt, FirstIn, TilesAt, Pow2, Hilbert, Wanted;
      ZoomsAbut(z);
      var found := GatherBlocks(z, from, to);
      var blocks := Sort(found, FirstAtMost);
      SortedBlocksFollow(z, found, blocks);
      SortKeepsApart(found, FirstAtMost);
      chunks := before;
      ghost var bound := FirstIdAt(z);
      for j := 0 to |blocks|
        invariant forall c :: c in chunks ==> c != []
        invariant FirstIdAt(z) <= bound <= FirstIdAt(z + 1)
        invariant j == 0 ==> bound == FirstIdAt(z)
        invariant j > 0 ==> bound == blocks[j - 1].first + TilesAt(BLOCK_BITS)
        invariant Swept(Flat(chunks), bound, from, to)
      {
        var b := blocks[j];
        assert b in blocks;
        RunIsInItsZoom(z, b);
        chunks, bound := SweepOneBlock(z, blocks, j, bound, from, to, chunks);
      }
      forall id: nat | bound <= id < FirstIdAt(z + 1)
        ensures !Wanted(id, from, to)
      {
        NothingBetweenBlocks(z, blocks, |blocks|, id, from, to);
      }
      SweepsPast(Flat(chunks), bound, FirstIdAt(z + 1), from, to);
    }

    method SweepOneBlock(z: nat, blocks: seq<Block>, j: nat, ghost bound: nat, from: nat, to: Limit,
                         before: seq<seq<nat>>)
      returns (chunks: seq<seq<nat>>, ghost next: nat)
      requires Valid() && BLOCK_BITS < z && j < |blocks| && Lists(z, blocks, from, to)
      requires forall i, j :: 0 <= i < j < |blocks| ==> blocks[i].first + TilesAt(BLOCK_BITS) <= blocks[j].first
      requires FirstIdAt(z) <= bound && blocks[j].first + TilesAt(BLOCK_BITS) <= FirstIdAt(z + 1)
      requires j > 0 ==> bound == blocks[j - 1].first + TilesAt(BLOCK_BITS)
      requires j == 0 ==> bound == FirstIdAt(z)
      requires Swept(Flat(before), bound, from, to) && forall c :: c in before ==> c != []
      ensures next == blocks[j].first + TilesAt(BLOCK_BITS)
      ensures Swept(Flat(chunks), next, from, to) && forall c :: c in chunks ==> c != []
    {
      var b := blocks[j];
      assert b in blocks;
      RunIsInItsZoom(z, b);
      next := b.first + TilesAt(BLOCK_BITS);
      assert bound <= b.first;
      forall id: nat | bound <= id < b.first
        ensures !Wanted(id, from, to)
      {
        NothingBetweenBlocks(z, blocks, j, id, from, to);
      }
      SweepsPast(Flat(before), bound, b.first, from, to);
      var ids := SweepBlock(z, b, from, to);
      SweepsOn(Flat(before), b.first, ids, next, from, to);
      chunks := before;
      if |ids| > 0 {
        FlatOfOneMore(before, ids);
        chunks := chunks + [ids];
      } else {
        assert Flat(before) + ids == Flat(before);
      }
    }

    /** A zoom no bigger than one block, read whole. */
    method SweepWhole(z: nat, from: nat, to: Limit, before: seq<seq<nat>>) returns (chunks: seq<seq<nat>>)
      requires Valid()
      requires Swept(Flat(before), FirstIdAt(z), from, to) && forall c :: c in before ==> c != []
      ensures Swept(Flat(chunks), FirstIdAt(z + 1), from, to) && forall c :: c in chunks ==> c != []
    {
      var rows := AtZoom(z);
      WhereHolds(tiles, (r: Row) => r.zoom == z);
      IdsOfClimbs(rows, from, to);
      var ids := IdsOf(rows, from, to);
      ZoomsAbut(z);
      forall id: nat
        ensures id in ids <==> FirstIdAt(z) <= id < FirstIdAt(z + 1) && Wanted(id, from, to)
      {
        if FirstIdAt(z) <= id < FirstIdAt(z + 1) && Wanted(id, from, to) {
          var r :| r in tiles && r.Id() == id;
          IdIsOfItsZoom(r, z);
          assert r in rows;
        }
      }
      SweepsOn(Flat(before), FirstIdAt(z), ids, FirstIdAt(z + 1), from, to);
      chunks := before;
      if |ids| > 0 {
        FlatOfOneMore(before, ids);
        chunks := chunks + [ids];
      } else {
        assert Flat(before) + ids == Flat(before);
      }
    }

    /** No tile lies between one stored zoom and the next. */
    lemma NothingBetweenZooms(i: nat, id: nat, from: nat, to: Limit)
      requires Valid()
      requires var zooms := Zooms(MAX_ZOOM + 1);
               && i <= |zooms|
               && (i > 0 ==> FirstIdAt(zooms[i - 1] + 1) <= id)
               && (i < |zooms| ==> id < FirstIdAt(zooms[i]))
      ensures !Wanted(id, from, to)
    {
      hide Zooms, FirstIdAt, TilesAt, Pow2, Hilbert;
      var zooms := Zooms(MAX_ZOOM + 1);
      ZoomsHold(MAX_ZOOM + 1);
      if Wanted(id, from, to) {
        var r :| r in tiles && r.Id() == id;
        assert r.zoom in zooms;
        var k :| 0 <= k < |zooms| && zooms[k] == r.zoom;
        if k < i {
          ZoomsAscend(r.zoom + 1, zooms[i - 1] + 1);
        } else {
          ZoomsAscend(zooms[i], r.zoom);
        }
      }
    }

    /**
     Every tile id the archive holds in the run, ascending, in chunks. However
     the table is ordered and wherever the run begins and ends, the chunks put
     together are exactly the stored tiles' ids lying in it, strictly ascending,
     none lost and none repeated; and no chunk is empty.
     */
    method TileIds(from: nat, to: Limit) returns (chunks: seq<seq<nat>>)
      requires Valid()
      ensures Climbs(Flat(chunks))
      ensures forall id: nat ::
                id in Flat(chunks) <==> from <= id && to.Allows(id) && exists r :: r in tiles && r.Shows(ZxyOf(id))
      ensures forall c :: c in chunks ==> c != []
    {
      hide FirstIdAt, TilesAt, Pow2, Hilbert, Zooms;
      var zooms := Zooms(MAX_ZOOM + 1);
      ZoomsHold(MAX_ZOOM + 1);
      chunks := [];
      ghost var bound := 0;
      for i := 0 to |zooms|
        invariant forall c :: c in chunks ==> c != []
        invariant bound == if i == 0 then 0 else FirstIdAt(zooms[i - 1] + 1)
        invariant Swept(Flat(chunks), bound, from, to)
      {
        var z := zooms[i];
        assert z in zooms;
        var start, end := FirstIdAt(z), FirstIdAt(z + 1);
        if i > 0 {
          ZoomsAscend(zooms[i - 1] + 1, z);
        }
        ZoomsAbut(z);
        forall id: nat | bound <= id < start
          ensures !Wanted(id, from, to)
        {
          NothingBetweenZooms(i, id, from, to);
        }
        SweepsPast(Flat(chunks), bound, start, from, to);
        if end <= from || !to.Allows(start) {
          SweepsPast(Flat(chunks), start, end, from, to);
        } else if z <= BLOCK_BITS {
          chunks := SweepWhole(z, from, to, chunks);
        } else {
          chunks := SweepBlocks(z, from, to, chunks);
        }
        bound := end;
      }
      forall id: nat | bound <= id
        ensures !Wanted(id, from, to)
      {
        NothingBetweenZooms(|zooms|, id, from, to);
      }
      forall id: nat
        ensures id in Flat(chunks) <==> from <= id && to.Allows(id) && exists r :: r in tiles && r.Shows(ZxyOf(id))
      {
        WantedIsShown(id, from, to);
      }
    }

    lemma WantedIsShown(id: nat, from: nat, to: Limit)
      requires Valid()
      ensures Wanted(id, from, to) <==> from <= id && to.Allows(id) && exists r :: r in tiles && r.Shows(ZxyOf(id))
    {
      forall r | r in tiles
        ensures r.Id() == id <==> r.Shows(ZxyOf(id))
      {
        IdIsOfTheTile(r, id);
      }
      hide Row.Id, Row.Shows;
    }
  }

  lemma DivisionAscends(a: nat, b: nat, d: nat)
    requires 0 < d && a <= b
    ensures a / d <= b / d
  {
    assert (b / d + 1) * d == b / d * d + d;
    if b / d < a / d {
      ProductsAscend(b / d + 1, a / d, d);
    }
  }
}
