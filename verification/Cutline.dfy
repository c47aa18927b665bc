/**
 Clipping to a shape: its edges are projected and indexed once, and a tile is
 then classified by looking only at the buckets it overlaps.
 */
module Cutline {
  import opened Geometry

  datatype Result<T> = Success(value: T) | Failure(error: string)

  /** The three answers. Only `Partial` costs anything. */
  datatype Answer = Outside | Insides | Partial

  const PER_BUCKET := 16
  const MAX_GRID := 256

  /** The smallest difference between 1 and a larger double, which keeps a flat shape's width positive. */
  const EPSILON: real := 1.0 / 4503599627370496.0

  function WorldX(lon: real): real {
    (lon + 180.0) / 360.0
  }

  /** A ring of longitudes and latitudes in world coordinates, closed whether or not it said so. */
  ghost function Projected(ring: seq<(real, real)>, worldY: real -> real): seq<Point>
    requires ring != []
  {
    var points := seq(|ring|, i requires 0 <= i < |ring| => Point(WorldX(ring[i].0), worldY(ring[i].1)));
    if points[0] != points[|points| - 1] then points + [points[0]] else points
  }

  ghost function EdgesOf(points: seq<Point>): seq<Segment> {
    if |points| < 2 then [] else EdgesOf(points[..|points| - 1]) + [Segment(points[|points| - 2], points[|points| - 1])]
  }

  lemma {:induction false} EdgesAt(points: seq<Point>)
    ensures points != [] ==> |EdgesOf(points)| == |points| - 1
    ensures forall i :: 0 <= i < |EdgesOf(points)| ==> EdgesOf(points)[i] == Segment(points[i], points[i + 1])
  {
    if |points| >= 2 {
      EdgesAt(points[..|points| - 1]);
    }
  }

  /** All the rings' edges, ring after ring. */
  ghost function EdgesOfRings(rings: seq<seq<(real, real)>>, worldY: real -> real): seq<Segment>
    requires forall i :: 0 <= i < |rings| ==> rings[i] != []
  {
    Joined(LoopsOf(rings, worldY))
  }

  ghost function LoopsOf(rings: seq<seq<(real, real)>>, worldY: real -> real): seq<seq<Segment>>
    requires forall i :: 0 <= i < |rings| ==> rings[i] != []
  {
    seq(|rings|, i requires 0 <= i < |rings| => EdgesOf(Projected(rings[i], worldY)))
  }

  lemma {:induction false} ClosedPointsLoop(points: seq<Point>)
    requires points != [] && points[0] == points[|points| - 1]
    ensures Loop(EdgesOf(points))
  {
    EdgesAt(points);
    var edges := EdgesOf(points);
    var n := |edges|;
    if n > 0 {
      assert edges[0] == Segment(points[0], points[1]) && edges[n - 1] == Segment(points[n - 1], points[n]);
    }
    forall i | 0 < i < |edges|
      ensures edges[i].a == edges[i - 1].b
    {
      assert edges[i] == Segment(points[i], points[i + 1]);
      assert edges[i - 1] == Segment(points[i - 1], points[i]);
    }
  }

  lemma RingsMakeLoops(rings: seq<seq<(real, real)>>, worldY: real -> real)
    requires forall i :: 0 <= i < |rings| ==> rings[i] != []
    ensures MadeOfLoops(EdgesOfRings(rings, worldY))
  {
    var loops := LoopsOf(rings, worldY);
    forall i | 0 <= i < |loops|
      ensures Loop(loops[i])
    {
      ClosedPointsLoop(Projected(rings[i], worldY));
    }
  }

  function BoxOf(s: Segment): Box {
    Box(s.Left(), s.Top(), s.Right(), s.Bottom())
  }

  function Grown(box: Box, s: Segment): Box {
    Box(Least(box.left, s.Left()), Least(box.top, s.Top()), Most(box.right, s.Right()), Most(box.bottom, s.Bottom()))
  }

  /** The smallest box around some edges. */
  ghost function Hull(segments: seq<Segment>): Box
    requires segments != []
  {
    var last := segments[|segments| - 1];
    if |segments| == 1 then BoxOf(last) else Grown(Hull(segments[..|segments| - 1]), last)
  }

  lemma {:induction false} HullBounds(segments: seq<Segment>)
    requires segments != []
    ensures Bounds(Hull(segments), segments)
  {
    if |segments| > 1 {
      HullBounds(segments[..|segments| - 1]);
      assert segments == segments[..|segments| - 1] + [segments[|segments| - 1]];
    }
  }

  /** The grid laid over a shape's bounding box. */
  datatype Cells = Cells(left: real, top: real, width: real, height: real, grid: nat) {
    ghost predicate Valid() {
      0.0 < width && 0.0 < height && 0 < grid
    }

    function Column(x: real): (c: nat)
      requires Valid()
      ensures c < grid
    {
      Clamp(((x - left) / width * grid as real).Floor)
    }

    function Row(y: real): (r: nat)
      requires Valid()
      ensures r < grid
    {
      Clamp(((y - top) / height * grid as real).Floor)
    }

    function Clamp(i: int): (c: nat)
      requires 0 < grid
      ensures c < grid
    {
      var atLeast := if i < 0 then 0 else i;
      if atLeast < grid then atLeast else grid - 1
    }

    /** The cells a segment's bounding box reaches. */
    predicate Touches(s: Segment, row: nat, column: nat)
      requires Valid()
    {
      && Row(s.Top()) <= row <= Row(s.Bottom())
      && Column(s.Left()) <= column <= Column(s.Right())
    }

    lemma CellsAscend(x: real, x': real)
      requires Valid() && x <= x'
      ensures Column(x) <= Column(x')
    {
      ScaleAscends(x - left, x' - left, width, grid);
      FloorAscends((x - left) / width * grid as real, (x' - left) / width * grid as real);
    }

    lemma RowsAscend(y: real, y': real)
      requires Valid() && y <= y'
      ensures Row(y) <= Row(y')
    {
      ScaleAscends(y - top, y' - top, height, grid);
      FloorAscends((y - top) / height * grid as real, (y' - top) / height * grid as real);
    }
  }

  lemma ScaleAscends(x: real, x': real, width: real, grid: nat)
    requires x <= x' && 0.0 < width
    ensures x / width * grid as real <= x' / width * grid as real
  {
    var q, q' := x / width, x' / width;
    assert q <= q' by {
      assert q * width == x && q' * width == x';
      if q' < q {
        MultiplyAscends(q', q, width);
      }
    }
    if q < q' && grid > 0 {
      MultiplyAscends(q, q', grid as real);
    }
  }

  lemma FloorAscends(a: real, b: real)
    requires a <= b
    ensures a.Floor <= b.Floor
  {
  }

  lemma MultiplyAscends(a: real, b: real, w: real)
    requires a < b && 0.0 < w
    ensures a * w < b * w
  {
  }

  /** The edges below index n that touch a cell, in order. */
  function Listed(cells: Cells, segments: seq<Segment>, row: nat, column: nat, n: nat): seq<nat>
    requires cells.Valid() && n <= |segments|
  {
    if n == 0 then []
    else Listed(cells, segments, row, column, n - 1) + if cells.Touches(segments[n - 1], row, column) then [n - 1]
      else []
  }

  lemma {:induction false} ListedMeans(cells: Cells, segments: seq<Segment>, row: nat, column: nat, n: nat)
    requires cells.Valid() && n <= |segments|
    ensures forall i: nat :: i in Listed(cells, segments, row, column, n) <==>
            i < n && cells.Touches(segments[i], row, column)
  {
    if n > 0 {
      ListedMeans(cells, segments, row, column, n - 1);
    }
  }

  /** What `prepare` builds. */
  datatype Shape = Shape(segments: seq<Segment>, bbox: Box, cells: Cells, buckets: map<(nat, nat), seq<nat>>) {
    ghost predicate Valid() {
      && segments != [] && MadeOfLoops(segments)
      && bbox == Hull(segments)
      && cells.Valid()
      && (forall row: nat, column: nat :: row < cells.grid && column < cells.grid ==> (row, column) in buckets)
      && (forall row: nat, column: nat :: row < cells.grid && column < cells.grid ==>
            buckets[(row, column)] == Listed(cells, segments, row, column, |segments|))
    }
  }

  /**
   The root of count / PER_BUCKET, rounded and kept between 1 and MAX_GRID: half-integers square to (2g
   - 1)^2 / 4.
   */
  predicate IsGridFor(grid: nat, count: nat) {
    && 1 <= grid <= MAX_GRID
    && (grid > 1 ==> (2 * grid - 1) * (2 * grid - 1) * PER_BUCKET <= 4 * count)
    && (grid < MAX_GRID ==> 4 * count < (2 * grid + 1) * (2 * grid + 1) * PER_BUCKET)
  }

  method GridFor(count: nat) returns (grid: nat)
    ensures IsGridFor(grid, count) && (count < 36 <==> grid == 1)
    ensures grid <= 256 && (count >= 1044484 ==> grid == 256)
  {
    grid := 1;
    while grid < MAX_GRID && (2 * grid + 1) * (2 * grid + 1) * PER_BUCKET <= 4 * count
      invariant 1 <= grid <= MAX_GRID
      invariant grid > 1 ==> (2 * grid - 1) * (2 * grid - 1) * PER_BUCKET <= 4 * count
      invariant count < 36 ==> grid == 1
    {
      grid := grid + 1;
    }
    if grid < 255 {
      SquaresGrow(2 * grid + 1, 511);
    }
  }

  lemma SquaresGrow(a: nat, b: nat)
    requires a <= b
    ensures a * a * PER_BUCKET <= b * b * PER_BUCKET
  {
    assert a * a <= a * b <= b * b;
  }

  /** One ring's edges appended to those before it, and the bounding box grown to hold them. */
  method AddRing(ring: seq<(real, real)>, worldY: real -> real, before: seq<Segment>, within: Box)
    returns (segments: seq<Segment>, bbox: Box)
    requires ring != [] && (before != [] ==> within == Hull(before))
    ensures segments == before + EdgesOf(Projected(ring, worldY))
    ensures segments != [] ==> bbox == Hull(segments)
  {
    segments, bbox := before, within;
    var points := seq(|ring|, i requires 0 <= i < |ring| => Point(WorldX(ring[i].0), worldY(ring[i].1)));
    if points[0] != points[|points| - 1] {
      points := points + [points[0]];
    }
    assert points == Projected(ring, worldY);
    for i := 0 to |points| - 1
      invariant segments == before + EdgesOf(points[..i + 1])
      invariant segments != [] ==> bbox == Hull(segments)
    {
      var s := Segment(points[i], points[i + 1]);
      OneEdgeMore(before, points, i);
      HullOfOneMore(segments, s);
      bbox := if segments == [] then BoxOf(s) else Grown(bbox, s);
      segments := segments + [s];
    }
    assert points[..|points|] == points;
  }

  lemma OneEdgeMore(before: seq<Segment>, points: seq<Point>, i: nat)
    requires i + 1 < |points|
    ensures before + EdgesOf(points[..i + 2]) == before + EdgesOf(points[..i + 1]) + [Segment(points[i], points[i + 1])]
  {
    assert points[..i + 2][..i + 1] == points[..i + 1];
  }

  lemma HullOfOneMore(segments: seq<Segment>, s: Segment)
    ensures Hull(segments + [s]) == if segments == [] then BoxOf(s) else Grown(Hull(segments), s)
  {
    assert (segments + [s])[..|segments|] == segments;
  }

  /** Adds one edge to every bucket its bounding box reaches. */
  method IndexEdge(cells: Cells, segments: seq<Segment>, index: nat, before: map<(nat, nat), seq<nat>>)
    returns (buckets: map<(nat, nat), seq<nat>>)
    requires cells.Valid() && index < |segments|
    requires forall row: nat, column: nat :: row < cells.grid && column < cells.grid ==>
      (row, column) in before && before[(row, column)] == Listed(cells, segments, row, column, index)
    ensures forall row: nat, column: nat :: row < cells.grid && column < cells.grid ==>
      (row, column) in buckets && buckets[(row, column)] == Listed(cells, segments, row, column, index + 1)
  {
    var segment := segments[index];
    var c0, r0 := cells.Column(segment.Left()), cells.Row(segment.Top());
    var c1, r1 := cells.Column(segment.Right()), cells.Row(segment.Bottom());
    cells.CellsAscend(segment.Left(), segment.Right());
    cells.RowsAscend(segment.Top(), segment.Bottom());
    buckets := before;
    for row := r0 to r1 + 1
      invariant forall r: nat, c: nat :: r < cells.grid && c < cells.grid ==>
        (r, c) in buckets &&
        buckets[(r, c)] == before[(r, c)] + if r < row && cells.Touches(segment, r, c) then [index] else []
    {
      for column := c0 to c1 + 1
        invariant forall r: nat, c: nat :: r < cells.grid && c < cells.grid ==>
          (r, c) in buckets &&
          buckets[(r, c)] == before[(r, c)] +
            if (r < row || (r == row && c < column)) && cells.Touches(segment, r, c) then [index] else []
      {
        buckets := buckets[(row, column) := buckets[(row, column)] + [index]];
      }
    }
  }

  /** Every edge of every ring, and the box around them. */
  method GatherEdges(rings: seq<seq<(real, real)>>, worldY: real -> real) returns (segments: seq<Segment>, bbox: Box)
    requires forall i :: 0 <= i < |rings| ==> rings[i] != []
    ensures segments == EdgesOfRings(rings, worldY)
    ensures segments != [] ==> bbox == Hull(segments)
  {
    segments, bbox := [], Box(0.0, 0.0, 0.0, 0.0);
    ghost var loops := LoopsOf(rings, worldY);
    for i := 0 to |rings|
      invariant segments == Joined(loops[..i])
      invariant segments != [] ==> bbox == Hull(segments)
    {
      assert loops[..i + 1][..i] == loops[..i];
      segments, bbox := AddRing(rings[i], worldY, segments, bbox);
    }
    assert loops[..|rings|] == loops;
  }

  method IndexEdges(cells: Cells, segments: seq<Segment>) returns (buckets: map<(nat, nat), seq<nat>>)
    requires cells.Valid()
    ensures forall row: nat, column: nat :: row < cells.grid && column < cells.grid ==>
      (row, column) in buckets && buckets[(row, column)] == Listed(cells, segments, row, column, |segments|)
  {
    buckets := map row: nat, column: nat | row < cells.grid && column < cells.grid :: (row, column) := [];
    for index := 0 to |segments|
      invariant forall row: nat, column: nat :: row < cells.grid && column < cells.grid ==>
        (row, column) in buckets && buckets[(row, column)] == Listed(cells, segments, row, column, index)
    {
      buckets := IndexEdge(cells, segments, index, buckets);
    }
  }

  lemma CellsAreValid(cells: Cells, bbox: Box)
    requires cells.width == Most(bbox.right - bbox.left, EPSILON)
    requires cells.height == Most(bbox.bottom - bbox.top, EPSILON)
    ensures cells.Valid() <==> 0 < cells.grid
  {
  }

  /** The grid to index so many edges on. */
  method CellsFor(bbox: Box, count: nat) returns (cells: Cells)
    ensures cells.Valid() && IsGridFor(cells.grid, count) && (count < 36 <==> cells.grid == 1)
    ensures cells.grid <= 256 && (count >= 1044484 ==> cells.grid == 256)
    ensures cells.left == bbox.left && cells.top == bbox.top
    ensures cells.width == Most(bbox.right - bbox.left, 1.0 / 4503599627370496.0)
    ensures cells.height == Most(bbox.bottom - bbox.top, 1.0 / 4503599627370496.0)
  {
    hide IsGridFor, Cells.Valid, Most;
    var grid := GridFor(count);
    IsAGrid(grid, count);
    cells := Cells(bbox.left, bbox.top, Most(bbox.right - bbox.left, EPSILON), Most(bbox.bottom - bbox.top, EPSILON),
                   grid);
    CellsAreValid(cells, bbox);
  }

  lemma IsAGrid(grid: nat, count: nat)
    requires IsGridFor(grid, count)
    ensures 0 < grid
  {
  }

  lemma IndexedIsValid(segments: seq<Segment>, bbox: Box, cells: Cells, buckets: map<(nat, nat), seq<nat>>)
    requires segments != [] && MadeOfLoops(segments) && bbox == Hull(segments) && cells.Valid()
    requires forall row: nat, column: nat :: row < cells.grid && column < cells.grid ==>
      (row, column) in buckets && buckets[(row, column)] == Listed(cells, segments, row, column, |segments|)
    ensures Shape(segments, bbox, cells, buckets).Valid()
  {
    hide MadeOfLoops, Hull, Listed, Cells.Valid;
  }

  /** Prepares a shape for asking about tiles. Latitudes are projected by `worldY`. */
  method Prepare(rings: seq<seq<(real, real)>>, worldY: real -> real) returns (r: Result<Shape>)
    requires forall i :: 0 <= i < |rings| ==> rings[i] != []
    ensures r.Failure? <==> EdgesOfRings(rings, worldY) == []
    ensures r.Success? ==> r.value.Valid() && r.value.segments == EdgesOfRings(rings, worldY)
    ensures r.Success? ==>
            IsGridFor(r.value.cells.grid, |r.value.segments|) &&
            (|r.value.segments| < 36 <==> r.value.cells.grid == 1)
    ensures r.Success? ==>
            r.value.cells.grid <= 256 && (|r.value.segments| >= 1044484 ==> r.value.cells.grid == 256)
    ensures r.Success? ==>
            var box, cells := r.value.bbox, r.value.cells;
            && cells.left == box.left && cells.top == box.top
            && cells.width == Most(box.right - box.left, 1.0 / 4503599627370496.0)
            && cells.height == Most(box.bottom - box.top, 1.0 / 4503599627370496.0)
  {
    var segments, bbox := GatherEdges(rings, worldY);
    if |segments| == 0 {
      return Failure("this cutline encloses nothing");
    }
    RingsMakeLoops(rings, worldY);
    hide *;
    var cells := CellsFor(bbox, |segments|);
    var buckets := IndexEdges(cells, segments);
    IndexedIsValid(segments, bbox, cells, buckets);
    r := Success(Shape(segments, bbox, cells, buckets));
  }

  /** The ring of a rectangle's corners. */
  function Corners(west: real, south: real, east: real, north: real): seq<(real, real)> {
    [(west, south), (east, south), (east, north), (west, north), (west, south)]
  }

  /** The four sides of a rectangle. */
  function Sides(west: real, south: real, east: real, north: real, worldY: real -> real): (sides: seq<Segment>)
    ensures |sides| == 4
  {
    var left, right, bottom, top := WorldX(west), WorldX(east), worldY(south), worldY(north);
    [Segment(Point(left, bottom), Point(right, bottom)), Segment(Point(right, bottom), Point(right, top)),
     Segment(Point(right, top), Point(left, top)), Segment(Point(left, top), Point(left, bottom))]
  }

  lemma RectangleHasSides(west: real, south: real, east: real, north: real, worldY: real -> real)
    ensures EdgesOf(Projected(Corners(west, south, east, north), worldY)) == Sides(west, south, east, north, worldY)
  {
    var points := Projected(Corners(west, south, east, north), worldY);
    assert |points| == 5;
    EdgesAt(points);
    var corners, edges, sides := Corners(west, south, east, north), EdgesOf(points),
      Sides(west, south, east, north, worldY);
    forall i | 0 <= i < 4
      ensures edges[i] == sides[i]
    {
      assert points[i] == Point(WorldX(corners[i].0), worldY(corners[i].1));
      assert points[i + 1] == Point(WorldX(corners[i + 1].0), worldY(corners[i + 1].1));
    }
  }

  /** A rectangle as a shape; it has so few edges that its index is a single bucket. */
  method FromBounds(bounds: seq<real>, worldY: real -> real) returns (r: Result<Shape>)
    ensures r.Success? <==> |bounds| == 4 && bounds[0] < bounds[2] && bounds[1] < bounds[3]
    ensures r.Success? ==> r.value.Valid() && r.value.cells.grid == 1
    ensures r.Success? ==> r.value.segments == Sides(bounds[0], bounds[1], bounds[2], bounds[3], worldY)
  {
    if |bounds| != 4 {
      return Failure("bounds must be [west, south, east, north]");
    }
    var west, south, east, north := bounds[0], bounds[1], bounds[2], bounds[3];
    if east <= west || north <= south {
      return Failure("bounds must have west < east and south < north");
    }
    ghost var loops := LoopsOf([Corners(west, south, east, north)], worldY);
    RectangleHasSides(west, south, east, north, worldY);
    assert loops[..0] == [] && Joined(loops[..0]) == [];
    assert Joined(loops) == Sides(west, south, east, north, worldY);
    r := Prepare([Corners(west, south, east, north)], worldY);
  }
}
