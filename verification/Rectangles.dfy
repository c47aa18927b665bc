/** What a rectangle covers, and how far the rows of a mask can be trusted where a shape's index has several buckets. */
module Rectangles {
  import opened Geometry
  import opened Cutline
  import opened Classify
  import Powers
  import opened Raster
  import opened Sorting

  /** Within a rectangle, its western and northern edges included. */
  predicate InRectangle(west: real, south: real, east: real, north: real, worldY: real -> real, x: real, y: real) {
    WorldX(west) <= x < WorldX(east) && Least(worldY(south), worldY(north)) <= y < Most(worldY(south), worldY(north))
  }

  lemma InsideOfFour(a: Segment, b: Segment, c: Segment, d: Segment, x: real, y: real)
    ensures Inside([a, b, c, d], x, y) ==
            ((Crosses(a, x, y) != Crosses(b, x, y)) != (Crosses(c, x, y) != Crosses(d, x, y)))
  {
    InsideOfLast([a], x, y);
    InsideOfLast([a, b], x, y);
    InsideOfLast([a, b, c], x, y);
    InsideOfLast([a, b, c, d], x, y);
    assert [a][..0] == [] && [a, b][..1] == [a] && [a, b, c][..2] == [a, b] && [a, b, c, d][..3] == [a, b, c];
    assert !Inside([], x, y);
  }

  lemma CrossesUpright(x0: real, from: real, to: real, x: real, y: real)
    ensures Crosses(Segment(Point(x0, from), Point(x0, to)), x, y) <==> x < x0 && Least(from, to) <= y < Most(from, to)
  {
  }

  /** The even-odd rule over a rectangle's four sides is being in it. */
  lemma RectangleIsItsInside(west: real, south: real, east: real, north: real, worldY: real -> real, x: real, y: real)
    requires west < east
    ensures Inside(Sides(west, south, east, north, worldY), x, y) <==>
            InRectangle(west, south, east, north, worldY, x, y)
  {
    var sides := Sides(west, south, east, north, worldY);
    InsideOfFour(sides[0], sides[1], sides[2], sides[3], x, y);
    assert !Crosses(sides[0], x, y) && !Crosses(sides[2], x, y);
    CrossesUpright(WorldX(east), worldY(south), worldY(north), x, y);
    CrossesUpright(WorldX(west), worldY(north), worldY(south), x, y);
  }

  /** A pixel whose centre is off the edges is set exactly where it is in the rectangle. */
  ghost predicate IsCovered(bounds: seq<real>, worldY: real -> real, mask: bool, x: real, y: real)
    requires |bounds| == 4
  {
    OffEdges(Sides(bounds[0], bounds[1], bounds[2], bounds[3], worldY), x, y) ==>
      (mask <==> InRectangle(bounds[0], bounds[1], bounds[2], bounds[3], worldY, x, y))
  }

  /** So it is in the mask of every shape made from bounds. */
  lemma RectangleIsFilled(bounds: seq<real>, worldY: real -> real, shape: Shape, found: seq<nat>, mask: bool, x: real,
                          y: real)
    requires |bounds| == 4 && bounds[0] < bounds[2] &&
             shape.segments == Sides(bounds[0], bounds[1], bounds[2], bounds[3], worldY)
    requires RowIsNear(shape.segments, found, y) && RightPixel(shape, found, mask, x, y)
    ensures IsCovered(bounds, worldY, mask, x, y)
  {
    hide Sides, InRectangle, OffEdges, Inside, Filled, RowIsNear;
    RectangleIsItsInside(bounds[0], bounds[1], bounds[2], bounds[3], worldY, x, y);
  }

  /** The edges that cross the ray but were not found near the tile. */
  ghost function MissedEast(segments: seq<Segment>, found: seq<nat>, x: real, y: real): set<nat> {
    set i: nat | i < |segments| && i !in found && Crosses(segments[i], x, y)
  }

  lemma FoundOrMissed(segments: seq<Segment>, found: seq<nat>, x: real, y: real)
    requires Distinct(found) && forall k :: 0 <= k < |found| ==> found[k] < |segments|
    ensures Crossings(segments, x, y) == Crossings(Named(segments, found), x, y) + |MissedEast(segments, found, x, y)|
  {
    CrossingsCount(segments, x, y);
    NamedCount(segments, found, x, y);
    assert CrossedBy(segments, x, y) == CrossedAmong(segments, found, x, y) + MissedEast(segments, found, x, y);
    assert CrossedAmong(segments, found, x, y) !! MissedEast(segments, found, x, y);
  }

  /** Filling between crossings in pairs: what lies after an odd number of them, unless that is all of them. */
  lemma FillIsInPairs(crossings: seq<real>, x: real)
    requires Ascends(crossings, AtMost) && x !in crossings
    ensures Filled(crossings, x) <==> (|crossings| - East(crossings, x)) % 2 == 1 && East(crossings, x) > 0
  {
    var m := SplitAt(crossings, x);
    if m % 2 == 1 && m < |crossings| {
      assert Spans(crossings, m - 1, x);
    }
    if j: nat :| Spans(crossings, j, x) {
      assert j < m <= j + 1;
    }
  }

  /**
   What has to hold of a pixel for the near edges alone to fill it right: of the near crossings in its
   row, `near`, `east` lie east of it, and `missed` edges are not near.
   */
  predicate NearDecides(near: nat, east: nat, missed: nat) {
    if near % 2 == 0 then missed % 2 == 0 else (missed % 2 == 1) != (east == 0)
  }

  /**
   Where some edges were found near a tile, a pixel is set as it should be exactly
   when the crossings missed make no difference: an even number of them to the
   east, if those found pair up; and otherwise an odd number, but where none found
   is east, an even one.
   */
  lemma PixelIsRight(shape: Shape, found: seq<nat>, mask: bool, x: real, y: real)
    requires shape.Valid() && Distinct(found) && found != [] && RightPixel(shape, found, mask, x, y)
    requires x !in RowCrossings(Named(shape.segments, found), y)
    ensures var crossings := RowCrossings(Named(shape.segments, found), y);
            (mask <==> Inside(shape.segments, x, y)) <==>
            NearDecides(|crossings|, East(crossings, x), |MissedEast(shape.segments, found, x, y)|)
  {
    hide *;
    RightPixelIs(shape, found, mask, x, y);
    InsideIs(shape.segments, x, y);
    var crossings := RowCrossings(Named(shape.segments, found), y);
    var near, east, missed := |crossings|, East(crossings, x), |MissedEast(shape.segments, found, x, y)|;
    SortedFill(crossings, x);
    EastIsCrossings(Named(shape.segments, found), x, y);
    FoundOrMissed(shape.segments, found, x, y);
    Parities(near, east, missed);
  }

  /** No edge reaches a row through the box but those found near it. */
  ghost predicate AloneInItsRows(shape: Shape, box: Box)
    requires shape.Valid()
  {
    forall i: nat :: i < |shape.segments| && !ListedUnder(shape, box, i) ==>
      shape.segments[i].Bottom() <= box.top || box.bottom <= shape.segments[i].Top()
  }

  /** Which can be looked up before rasterizing a tile, and is enough for every pixel of it that is not on an edge. */
  lemma AloneIsRight(shape: Shape, box: Box, found: seq<nat>, mask: bool, x: real, y: real)
    requires shape.Valid() && AloneInItsRows(shape, box) && box.top < y < box.bottom
    requires forall i: nat :: i in found <==> i < |shape.segments| && ListedUnder(shape, box, i)
    requires RightPixel(shape, found, mask, x, y) && OffEdges(shape.segments, x, y)
    ensures mask <==> Inside(shape.segments, x, y)
  {
    forall i: nat | i < |shape.segments| && Straddles(shape.segments[i], y)
      ensures i in found
    {
      assert shape.segments[i].Top() <= y < shape.segments[i].Bottom();
    }
    assert RowIsNear(shape.segments, found, y);
    hide Inside, OffEdges, ListedUnder, Filled, AloneInItsRows;
  }

  lemma RightPixelIs(shape: Shape, found: seq<nat>, mask: bool, x: real, y: real)
    requires found != [] && RightPixel(shape, found, mask, x, y)
    ensures forall k :: 0 <= k < |found| ==> found[k] < |shape.segments|
    ensures mask <==> Filled(Sort(RowCrossings(Named(shape.segments, found), y), AtMost), x)
  {
    hide Filled, Sort, RowCrossings, Inside, RowIsNear, OffEdges;
  }

  lemma InsideIs(segments: seq<Segment>, x: real, y: real)
    ensures Inside(segments, x, y) <==> Crossings(segments, x, y) % 2 == 1
  {
  }

  lemma SortedFill(crossings: seq<real>, x: real)
    requires x !in crossings
    ensures East(crossings, x) <= |crossings|
    ensures Filled(Sort(crossings, AtMost), x) <==>
            (|crossings| - East(crossings, x)) % 2 == 1 && East(crossings, x) > 0
  {
    hide *;
    AtMostOrders();
    SortAscends(crossings, AtMost);
    EastOfSorted(crossings, x);
    SortHasTheSame(crossings, AtMost, x);
    EastIsSome(crossings, x);
    FillIsInPairs(Sort(crossings, AtMost), x);
  }

  lemma AtMostOrders()
    ensures TotalOrder(AtMost)
  {
  }

  lemma Parities(near: nat, east: nat, missed: nat)
    requires east <= near
    ensures (((near - east) % 2 == 1 && east > 0) <==> (east + missed) % 2 == 1) <==> NearDecides(near, east, missed)
  {
  }

  lemma {:induction false} EastIsSome(crossings: seq<real>, x: real)
    ensures East(crossings, x) <= |crossings|
  {
    if crossings != [] {
      EastIsSome(crossings[..|crossings| - 1], x);
    }
  }

  /** The same ring some times over. */
  function Copies(ring: seq<Segment>, n: nat): seq<Segment> {
    if n == 0 then [] else Copies(ring, n - 1) + ring
  }

  lemma {:induction false} RingsAreCopies(ring: seq<(real, real)>, n: nat, worldY: real -> real)
    requires ring != []
    ensures EdgesOfRings(seq(n, _ => ring), worldY) == Copies(EdgesOf(Projected(ring, worldY)), n)
  {
    if n > 0 {
      RingsAreCopies(ring, n - 1, worldY);
      assert LoopsOf(seq(n, _ => ring), worldY)[..n - 1] == LoopsOf(seq(n - 1, _ => ring), worldY);
    }
  }

  lemma {:induction false} CopiesAre(ring: seq<Segment>, n: nat)
    requires |ring| == 4
    ensures |Copies(ring, n)| == 4 * n && forall i :: 0 <= i < 4 * n ==> Copies(ring, n)[i] == ring[i % 4]
  {
    if n > 0 {
      CopiesAre(ring, n - 1);
    }
  }

  /** By the even-odd rule an odd number of copies is one. */
  lemma {:induction false} OddCopiesAreOne(ring: seq<Segment>, n: nat, x: real, y: real)
    ensures Inside(Copies(ring, n), x, y) == (n % 2 == 1 && Inside(ring, x, y))
  {
    if n == 0 {
      assert !Inside([], x, y);
    } else {
      OddCopiesAreOne(ring, n - 1, x, y);
      InsideOfJoined(Copies(ring, n - 1), ring, x, y);
    }
  }

  /** A shape with a single column of buckets on either side of its middle, as nine copies of one ring make. */
  ghost predicate InTwoColumns(shape: Shape, copies: nat, south: real, north: real, worldY: real -> real) {
    && shape.Valid() && shape.segments == Copies(Sides(-180.0, south, 90.0, north, worldY), copies)
    && shape.cells.grid == 2 && shape.cells.left == 0.0 && shape.cells.width == 0.75
  }

  /** Thirty-six edges take a grid of two. */
  lemma NineCopiesTakeTwo(grid: nat)
    requires IsGridFor(grid, 36)
    ensures grid == 2
  {
    FiveSquared(2 * grid - 1);
  }

  lemma FiveSquared(k: nat)
    ensures k >= 5 ==> k * k >= 25
  {
    if k >= 5 {
      Powers.ProductsAscend(5, k, 5);
      Powers.ProductsAscend(5, k, k);
    }
  }

  /** The hull of some copies of a ring is the ring's own. */
  lemma {:induction false} HullOfCopies(west: real, south: real, east: real, north: real, worldY: real -> real, n: nat)
    requires west <= east && 0 < n
    ensures var hull := Hull(Copies(Sides(west, south, east, north, worldY), n));
            hull.left == WorldX(west) && hull.right == WorldX(east)
  {
    var sides := Sides(west, south, east, north, worldY);
    var all := Copies(sides, n);
    CopiesAre(sides, n);
    HullBounds(all);
    HullIsReached(all);
    assert all[0] == sides[0];
    forall i | 0 <= i < |all|
      ensures WorldX(west) <= all[i].Left() && all[i].Right() <= WorldX(east)
    {
      assert all[i] == sides[i % 4];
    }
  }

  /** Some edge reaches each side of the hull. */
  lemma {:induction false} HullIsReached(segments: seq<Segment>)
    requires segments != []
    ensures exists i :: 0 <= i < |segments| && segments[i].Left() == Hull(segments).left
    ensures exists i :: 0 <= i < |segments| && segments[i].Right() == Hull(segments).right
  {
    var n := |segments| - 1;
    if n > 0 {
      var rest := segments[..n];
      HullIsReached(rest);
      var i :| 0 <= i < n && rest[i].Left() == Hull(rest).left;
      var j :| 0 <= j < n && rest[j].Right() == Hull(rest).right;
      assert segments[i] == rest[i] && segments[j] == rest[j];
    }
    assert segments[n].Left() == segments[n].Left() && segments[n].Right() == segments[n].Right();
  }

  /** The tile over the eastern half of the world lies in the second column. */
  lemma EastIsTheSecondColumn(cells: Cells)
    requires cells.grid == 2 && cells.left == 0.0 && cells.width == 0.75 && 0.0 < cells.height
    ensures cells.Column(0.0) == 0 && cells.Column(0.5) == 1 && cells.Column(0.75) == 1 && cells.Column(1.0) == 1
  {
    assert (0.5 - 0.0) / 0.75 * 2.0 > 1.0 && (0.5 - 0.0) / 0.75 * 2.0 < 2.0;
  }

  lemma EasternBox(tileY: nat, size: nat)
    requires 0 < size
    ensures GrownBox(1, 1, tileY, 0.0, size).left == 0.5 && GrownBox(1, 1, tileY, 0.0, size).right == 1.0
  {
    assert Powers.Pow2(1) == 2;
  }

  /** So the western sides are not near it, and the eastern ones are. */
  lemma OnlyEasternSidesAreNear(shape: Shape, copies: nat, south: real, north: real, worldY: real -> real, tileY: nat,
                                size: nat, y: real, i: nat)
    requires InTwoColumns(shape, copies, south, north, worldY) && 0 < size && i < |shape.segments|
    requires var box := GrownBox(1, 1, tileY, 0.0, size); box.top < y < box.bottom
    requires Least(worldY(south), worldY(north)) <= y < Most(worldY(south), worldY(north))
    ensures i % 4 == 3 ==> !ListedUnder(shape, GrownBox(1, 1, tileY, 0.0, size), i)
    ensures i % 4 == 1 ==> ListedUnder(shape, GrownBox(1, 1, tileY, 0.0, size), i)
  {
    var box, cells, s := GrownBox(1, 1, tileY, 0.0, size), shape.cells, shape.segments[i];
    EasternBox(tileY, size);
    EastIsTheSecondColumn(cells);
    CopiesAre(Sides(-180.0, south, 90.0, north, worldY), copies);
    if i % 4 == 1 {
      cells.RowsAscend(box.top, y);
      cells.RowsAscend(y, box.bottom);
      cells.RowsAscend(s.Top(), y);
      cells.RowsAscend(y, s.Bottom());
      assert cells.Touches(s, cells.Row(y), 1);
    }
  }

  /** Of a row through the tile, what is near is crossed only at the eastern side. */
  lemma CrossedOnlyEast(shape: Shape, copies: nat, south: real, north: real, worldY: real -> real, tileY: nat,
                        size: nat, y: real,
                        found: seq<nat>, c: real)
    requires InTwoColumns(shape, copies, south, north, worldY) && 0 < size
    requires var box := GrownBox(1, 1, tileY, 0.0, size); box.top < y < box.bottom
    requires Least(worldY(south), worldY(north)) <= y < Most(worldY(south), worldY(north))
    requires forall i: nat :: i in found <==>
             i < |shape.segments| && ListedUnder(shape, GrownBox(1, 1, tileY, 0.0, size), i)
    requires forall k :: 0 <= k < |found| ==> found[k] < |shape.segments|
    requires c in RowCrossings(Named(shape.segments, found), y)
    ensures c == 0.75
  {
    var k := HasCrossing(Named(shape.segments, found), y, c);
    var i := found[k];
    assert i in found;
    CopiesAre(Sides(-180.0, south, 90.0, north, worldY), copies);
    OnlyEasternSidesAreNear(shape, copies, south, north, worldY, tileY, size, y, i);
    var sides := Sides(-180.0, south, 90.0, north, worldY);
    assert shape.segments[i] == sides[i % 4];
    assert !Straddles(sides[0], y) && !Straddles(sides[2], y);
    assert CrossingAt(sides[1], y) == 0.75;
  }

  /**
   With several buckets a mask can be wrong: over the eastern half of the world,
   a rectangle from its western edge to three quarters of the way across, given
   nine times over, leaves every pixel it covers unset.
   */
  lemma ManyEdgesCanMislead(shape: Shape, copies: nat, south: real, north: real, worldY: real -> real, tileY: nat,
                            size: nat, x: real, y: real,
                            found: seq<nat>, mask: bool)
    requires InTwoColumns(shape, copies, south, north, worldY) && copies % 2 == 1 && 0 < size
    requires var box := GrownBox(1, 1, tileY, 0.0, size); box.top < y < box.bottom && box.left < x < 0.75
    requires Least(worldY(south), worldY(north)) <= y < Most(worldY(south), worldY(north))
    requires forall i: nat :: i in found <==>
             i < |shape.segments| && ListedUnder(shape, GrownBox(1, 1, tileY, 0.0, size), i)
    requires RightPixel(shape, found, mask, x, y)
    ensures Inside(shape.segments, x, y) && !mask
  {
    var sides := Sides(-180.0, south, 90.0, north, worldY);
    EasternBox(tileY, size);
    RectangleIsItsInside(-180.0, south, 90.0, north, worldY, x, y);
    OddCopiesAreOne(sides, copies, x, y);
    CopiesAre(sides, copies);
    OnlyEasternSidesAreNear(shape, copies, south, north, worldY, tileY, size, y, 1);
    assert 1 in found;
    var crossings := RowCrossings(Named(shape.segments, found), y);
    if j: nat :| Spans(Sort(crossings, AtMost), j, x) {
      var c := Sort(crossings, AtMost)[j];
      SortHasTheSame(crossings, AtMost, c);
      CrossedOnlyEast(shape, copies, south, north, worldY, tileY, size, y, found, c);
    }
  }

  /** The shape made of nine copies of a rectangle's ring has two columns. */
  lemma NineCopiesAreInTwoColumns(shape: Shape, south: real, north: real, worldY: real -> real)
    requires shape.Valid() && shape.segments == Copies(Sides(-180.0, south, 90.0, north, worldY), 9)
    requires IsGridFor(shape.cells.grid, |shape.segments|) && shape.cells.left == shape.bbox.left
    requires shape.cells.width == Most(shape.bbox.right - shape.bbox.left, EPSILON)
    ensures InTwoColumns(shape, 9, south, north, worldY)
  {
    var sides := Sides(-180.0, south, 90.0, north, worldY);
    CopiesAre(sides, 9);
    NineCopiesTakeTwo(shape.cells.grid);
    HullOfCopies(-180.0, south, 90.0, north, worldY, 9);
  }

  /** Nine copies of one ring, prepared. */
  method PrepareNine(south: real, north: real, worldY: real -> real) returns (shape: Shape)
    ensures InTwoColumns(shape, 9, south, north, worldY)
  {
    var ring := Corners(-180.0, south, 90.0, north);
    RectangleHasSides(-180.0, south, 90.0, north, worldY);
    RingsAreCopies(ring, 9, worldY);
    CopiesAre(Sides(-180.0, south, 90.0, north, worldY), 9);
    hide InTwoColumns, Sides, Copies, EdgesOfRings, Shape.Valid, IsGridFor, Corners;
    var r := Prepare(seq(9, _ => ring), worldY);
    shape := r.value;
    NineCopiesAreInTwoColumns(shape, south, north, worldY);
  }

  /** Where a pixel of the tile over the eastern half of the world is. */
  function PixelX(tileY: nat, size: nat, column: nat): real
    requires 0 < size
  {
    var box := GrownBox(1, 1, tileY, 0.0, size);
    Centre(box.left, (box.right - box.left) / size as real, column)
  }

  function PixelY(tileY: nat, size: nat, row: nat): real
    requires 0 < size
  {
    var box := GrownBox(1, 1, tileY, 0.0, size);
    Centre(box.top, (box.bottom - box.top) / size as real, row)
  }

  lemma PixelIsInside(tileY: nat, size: nat, row: nat, column: nat)
    requires row < size && column < size
    ensures var box := GrownBox(1, 1, tileY, 0.0, size);
            box.left < PixelX(tileY, size, column) && box.top < PixelY(tileY, size, row) < box.bottom
  {
    CentresAreWithin(GrownBox(1, 1, tileY, 0.0, size), size as real, row, column);
  }

  /** What the mask of such a tile says of one pixel. */
  ghost predicate SaysOf(shape: Shape, tileY: nat, size: nat, row: nat, column: nat, found: seq<nat>, mask: bool)
    requires 0 < size
  {
    RightPixel(shape, found, mask, PixelX(tileY, size, column), PixelY(tileY, size, row))
  }

  /** The tile over the eastern half of the world, rasterized. */
  method RasterizeEast(shape: Shape, tileY: nat, size: nat) returns (mask: array2<bool>, ghost found: seq<nat>)
    requires shape.Valid() && 0 < size
    ensures mask.Length0 == mask.Length1 == size
    ensures forall i: nat :: i in found <==>
            i < |shape.segments| && ListedUnder(shape, GrownBox(1, 1, tileY, 0.0, size), i)
    ensures forall row, column :: 0 <= row < size && 0 <= column < size ==>
              SaysOf(shape, tileY, size, row, column, found, mask[row, column])
  {
    hide Shape.Valid, RightPixel, ListedUnder, RowIsNear, GrownBox, Centre;
    mask, found := RasterizeTile(shape, 1, 1, tileY, size, 0);
    assert size + 0 * 2 == size;
  }

  lemma MisledAt(shape: Shape, south: real, north: real, worldY: real -> real, tileY: nat, size: nat, row: nat,
                 column: nat, found: seq<nat>, mask: bool)
    requires InTwoColumns(shape, 9, south, north, worldY) && shape.Valid()
    requires row < size && column < size && PixelX(tileY, size, column) < 0.75
    requires Least(worldY(south), worldY(north)) <= PixelY(tileY, size, row) < Most(worldY(south), worldY(north))
    requires forall i: nat :: i in found <==>
             i < |shape.segments| && ListedUnder(shape, GrownBox(1, 1, tileY, 0.0, size), i)
    requires SaysOf(shape, tileY, size, row, column, found, mask)
    ensures Inside(shape.segments, PixelX(tileY, size, column), PixelY(tileY, size, row)) && !mask
  {
    PixelIsInside(tileY, size, row, column);
    hide InTwoColumns, PixelX, PixelY, RightPixel, ListedUnder, GrownBox, Inside, Shape.Valid;
    ManyEdgesCanMislead(shape, 9, south, north, worldY, tileY, size, PixelX(tileY, size, column),
                        PixelY(tileY, size, row), found, mask);
  }

  /**
   So it does happen: nine copies of one ring, prepared and rasterized over the
   eastern half of the world, leave every pixel they cover unset.
   */
  method NineCopiesMislead(south: real, north: real, worldY: real -> real, tileY: nat, size: nat)
    returns (shape: Shape, mask: array2<bool>)
    requires 0 < size
    ensures InTwoColumns(shape, 9, south, north, worldY)
    ensures mask.Length0 == mask.Length1 == size
    ensures forall row: nat, column: nat :: LiesUnder(south, north, worldY, tileY, size, row, column) ==>
              Inside(shape.segments, PixelX(tileY, size, column), PixelY(tileY, size, row)) && !mask[row, column]
  {
    ghost var found;
    shape := PrepareNine(south, north, worldY);
    TwoColumnsAreValid(shape, 9, south, north, worldY);
    mask, found := RasterizeEast(shape, tileY, size);
    hide InTwoColumns, PixelX, PixelY, SaysOf, Inside, ListedUnder, GrownBox, Shape.Valid, Least, Most;
    forall row: nat, column: nat | LiesUnder(south, north, worldY, tileY, size, row, column)
      ensures Inside(shape.segments, PixelX(tileY, size, column), PixelY(tileY, size, row)) && !mask[row, column]
    {
      MisledAt(shape, south, north, worldY, tileY, size, row, column, found, mask[row, column]);
    }
  }

  /** The pixel's centre is in the rectangle. */
  ghost predicate LiesUnder(south: real, north: real, worldY: real -> real, tileY: nat, size: nat, row: nat,
                            column: nat) {
    && row < size && column < size && PixelX(tileY, size, column) < 0.75
    && Least(worldY(south), worldY(north)) <= PixelY(tileY, size, row) < Most(worldY(south), worldY(north))
  }

  lemma TwoColumnsAreValid(shape: Shape, copies: nat, south: real, north: real, worldY: real -> real)
    requires InTwoColumns(shape, copies, south, north, worldY)
    ensures shape.Valid()
  {
    hide Shape.Valid;
  }

  /** A pixel's centre lies within its tile. */
  lemma CentresAreWithin(box: Box, side: real, row: nat, column: nat)
    requires box.left < box.right && box.top < box.bottom
    requires (row + 1) as real <= side && (column + 1) as real <= side
    ensures box.left < Centre(box.left, (box.right - box.left) / side, column) < box.right
    ensures box.top < Centre(box.top, (box.bottom - box.top) / side, row) < box.bottom
  {
    CentreIsWithin(box.left, box.right, side, column);
    CentreIsWithin(box.top, box.bottom, side, row);
  }

  lemma CentreIsWithin(low: real, high: real, side: real, at: nat)
    requires low < high && (at + 1) as real <= side
    ensures low < Centre(low, (high - low) / side, at) < high
  {
    var step, n := (high - low) / side, at as real + 0.5;
    assert step * side == high - low;
    assert step > 0.0;
    assert n * step > 0.0;
    assert (side - n) * step > 0.0;
  }
}
