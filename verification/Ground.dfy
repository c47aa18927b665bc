/**
 Which ground a tile covers: a zoom's tiles divide the world between them,
 counted from the west and from the north; a border only adds to a tile; and a
 shape made from bounds is what lies between its meridians and parallels.
 */
module Ground {
  import opened Classify
  import opened Cutline
  import opened Geometry
  import opened Powers
  import opened Raster
  import opened Rectangles

  /** A place, as shares of the world from its western and its northern edge, is on a tile. */
  predicate OnTile(z: nat, x: nat, y: nat, px: real, py: real) {
    var box := TileBox(z, x, y);
    box.left <= px < box.right && box.top <= py < box.bottom
  }

  lemma ScalingKeepsOrder(a: real, b: real, n: real)
    requires 0.0 < n
    ensures a * n <= b * n <==> a <= b
  {
    if a < b {
      assert 0.0 < (b - a) * n;
    } else if b < a {
      assert 0.0 < (a - b) * n;
    }
  }

  lemma SharesOf(at: real, span: real, n: real)
    requires span * n == 1.0
    ensures at * span * n == at
  {
    assert at * span * n == at * (span * n);
  }

  /** A place is on the one of n equal shares that has this number. */
  predicate OnShare(at: nat, n: nat, p: real)
    requires 0 < n
  {
    var span := 1.0 / n as real;
    at as real * span <= p < (at + 1) as real * span
  }

  function Counted(n: nat, p: real): int {
    (p * n as real).Floor
  }

  /** Exactly where n times as much is between its number and the next. */
  lemma OnShareIs(at: nat, n: nat, p: real)
    requires 0 < n
    ensures OnShare(at, n, p) <==> Counted(n, p) == at
  {
    var span, m := 1.0 / n as real, n as real;
    assert span * m == 1.0;
    SharesOf(at as real, span, m);
    SharesOf((at + 1) as real, span, m);
    ScalingKeepsOrder(at as real * span, p, m);
    ScalingKeepsOrder((at + 1) as real * span, p, m);
  }

  /** A tile's column and row are counted in its own widths from the west and from the north. */
  lemma TileCovers(z: nat, x: nat, y: nat, px: real, py: real)
    ensures OnTile(z, x, y, px, py) <==>
            (px * Pow2(z) as real).Floor == x && (py * Pow2(z) as real).Floor == y
  {
    OnTileIs(z, x, y, px, py);
    hide OnTile, OnShare, Pow2;
    OnShareIs(x, Pow2(z), px);
    OnShareIs(y, Pow2(z), py);
  }

  lemma OnTileIs(z: nat, x: nat, y: nat, px: real, py: real)
    ensures OnTile(z, x, y, px, py) <==> OnShare(x, Pow2(z), px) && OnShare(y, Pow2(z), py)
  {
    hide Pow2;
  }

  lemma CountedIsBelow(p: real, n: nat)
    requires 0.0 <= p < 1.0 && 0 < n
    ensures 0 <= Counted(n, p) < n
  {
    var m := n as real;
    ScalingKeepsOrder(0.0, p, m);
    ScalingKeepsOrder(1.0, p, m);
    assert 0.0 * m == 0.0 && 1.0 * m == m;
    assert 0.0 <= p * m < m;
  }

  lemma IsCounted(z: nat, x: nat, y: nat, px: real, py: real)
    ensures OnTile(z, x, y, px, py) <==> Counted(Pow2(z), px) == x && Counted(Pow2(z), py) == y
  {
    TileCovers(z, x, y, px, py);
    hide OnTile, Pow2;
  }

  /** Every place in the world is on exactly one tile of each zoom. */
  lemma EachPlaceIsOnOneTile(z: nat, px: real, py: real) returns (x: nat, y: nat)
    requires 0.0 <= px < 1.0 && 0.0 <= py < 1.0
    ensures x < Pow2(z) && y < Pow2(z) && OnTile(z, x, y, px, py)
    ensures forall x': nat, y': nat :: OnTile(z, x', y', px, py) ==> x' == x && y' == y
  {
    hide *;
    CountedIsBelow(px, Pow2(z));
    CountedIsBelow(py, Pow2(z));
    x, y := Counted(Pow2(z), px), Counted(Pow2(z), py);
    IsCounted(z, x, y, px, py);
    forall x': nat, y': nat | OnTile(z, x', y', px, py)
      ensures x' == x && y' == y
    {
      IsCounted(z, x', y', px, py);
    }
  }

  /** Where the middle of a pixel is: of one of a tile's, or of its border's, counted from the tile. */
  function PixelAcross(box: Box, side: nat, column: int): real
    requires 0 < side
  {
    Centre(box.left, (box.right - box.left) / side as real, column)
  }

  function PixelDown(box: Box, side: nat, row: int): real
    requires 0 < side
  {
    Centre(box.top, (box.bottom - box.top) / side as real, row)
  }

  function Grown(low: real, high: real, size: nat, margin: nat): (real, real)
    requires 0 < size
  {
    var step := (high - low) / size as real;
    (low - margin as real * step, high + margin as real * step)
  }

  /** A stretch grown by some of its own steps at either end still has them where they were. */
  lemma GrownStretch(low: real, high: real, size: nat, margin: nat, at: int)
    requires 0 < size
    ensures var (from, to) := Grown(low, high, size, margin);
            Centre(from, (to - from) / (size + margin * 2) as real, at + margin) ==
            Centre(low, (high - low) / size as real, at)
  {
    var step, m, s := (high - low) / size as real, margin as real, size as real;
    var from, to, side := low - m * step, high + m * step, (size + margin * 2) as real;
    assert side == s + 2.0 * m && step * s == high - low;
    assert to - from == step * side by {
      assert step * side == step * s + 2.0 * (m * step);
    }
    assert (to - from) / side == step;
    assert ((at + margin) as real + 0.5) * step == (at as real + 0.5) * step + m * step;
  }

  /** So a border leaves every pixel of a tile over the ground it was over. */
  lemma GrownPixels(z: nat, x: nat, y: nat, size: nat, margin: nat, row: int, column: int)
    requires 0 < size
    ensures var box, grown := TileBox(z, x, y), GrownBox(z, x, y, margin as real, size);
            && PixelAcross(grown, size + margin * 2, column + margin) == PixelAcross(box, size, column)
            && PixelDown(grown, size + margin * 2, row + margin) == PixelDown(box, size, row)
  {
    var box, grown, side := TileBox(z, x, y), GrownBox(z, x, y, margin as real, size), size + margin * 2;
    GrownIs(z, x, y, size, margin);
    PixelsAre(box, size, row, column);
    PixelsAre(grown, side, row + margin, column + margin);
    GrownStretch(box.left, box.right, size, margin, column);
    GrownStretch(box.top, box.bottom, size, margin, row);
    hide *;
  }

  lemma PixelsAre(box: Box, side: nat, row: int, column: int)
    requires 0 < side
    ensures PixelAcross(box, side, column) == Centre(box.left, (box.right - box.left) / side as real, column)
    ensures PixelDown(box, side, row) == Centre(box.top, (box.bottom - box.top) / side as real, row)
  {
    hide Centre;
  }

  lemma PixelIsWithin(box: Box, side: nat, row: nat, column: nat)
    requires row < side && column < side && box.left < box.right && box.top < box.bottom
    ensures box.left < PixelAcross(box, side, column) < box.right && box.top < PixelDown(box, side, row) < box.bottom
  {
    PixelsAre(box, side, row, column);
    assert (row + 1) as real <= side as real && (column + 1) as real <= side as real;
    hide *;
    Rectangles.CentresAreWithin(box, side as real, row, column);
  }

  lemma GrownIs(z: nat, x: nat, y: nat, size: nat, margin: nat)
    requires 0 < size
    ensures var box, grown := TileBox(z, x, y), GrownBox(z, x, y, margin as real, size);
            && (grown.left, grown.right) == Grown(box.left, box.right, size, margin)
            && (grown.top, grown.bottom) == Grown(box.top, box.bottom, size, margin)
  {
    hide TileBox;
  }

  /** What both a tile's mask and a mask with a border say of one of the tile's pixels. */
  ghost predicate SaysBoth(shape: Shape, z: nat, x: nat, y: nat, size: nat, row: nat, column: nat, plain: bool,
                           padded: bool)
    requires 0 < size
  {
    var box := TileBox(z, x, y);
    var px, py := PixelAcross(box, size, column), PixelDown(box, size, row);
    OffEdges(shape.segments, px, py) ==>
      plain == padded && (plain <==> Inside(shape.segments, px, py))
  }

  /** A pixel of a mask with a border is right, where no edge reaches the rows of it but those listed under it. */
  lemma PaddedPixel(shape: Shape, z: nat, x: nat, y: nat, size: nat, margin: nat, row: nat, column: nat,
                    found: seq<nat>, mask: bool)
    requires shape.Valid() && row < size && column < size
    requires var grown := GrownBox(z, x, y, margin as real, size);
             && AloneInItsRows(shape, grown)
             && (forall i: nat :: i in found <==> i < |shape.segments| && ListedUnder(shape, grown, i))
             && RightPixel(shape, found, mask, PixelAcross(grown, size + margin * 2, column + margin),
                           PixelDown(grown, size + margin * 2, row + margin))
    ensures var box := TileBox(z, x, y);
            var px, py := PixelAcross(box, size, column), PixelDown(box, size, row);
            OffEdges(shape.segments, px, py) ==> (mask <==> Inside(shape.segments, px, py))
  {
    hide *;
    var grown, side := GrownBox(z, x, y, margin as real, size), size + margin * 2;
    GrownPixels(z, x, y, size, margin, row, column);
    var px, py := PixelAcross(grown, side, column + margin), PixelDown(grown, side, row + margin);
    PixelIsWithin(grown, side, row + margin, column + margin);
    if OffEdges(shape.segments, px, py) {
      AloneIsRight(shape, grown, found, mask, px, py);
    }
  }

  /**
   A tile masked with a border and one masked without agree about every pixel of
   the tile that is not on an edge, where no edge reaches their rows but those
   listed under them; which is so of every tile where the index is one bucket.
   */
  method MaskTwice(shape: Shape, z: nat, x: nat, y: nat, size: nat, margin: nat)
    returns (plain: array2<bool>, padded: array2<bool>)
    requires shape.Valid() && 0 < size
    ensures plain.Length0 == plain.Length1 == size && padded.Length0 == padded.Length1 == size + margin * 2
    ensures AloneInItsRows(shape, GrownBox(z, x, y, 0.0, size)) &&
            AloneInItsRows(shape, GrownBox(z, x, y, margin as real, size)) ==>
              forall row: nat, column: nat :: row < size && column < size ==>
                SaysBoth(shape, z, x, y, size, row, column, plain[row, column], padded[row + margin, column + margin])
  {
    ghost var near, farther;
    hide Shape.Valid, RightPixel, ListedUnder, RowIsNear, GrownBox, TileBox, Centre, AloneInItsRows, Inside, OffEdges;
    plain, near := RasterizeTile(shape, z, x, y, size, 0);
    padded, farther := RasterizeTile(shape, z, x, y, size, margin);
    if AloneInItsRows(shape, GrownBox(z, x, y, 0.0, size)) &&
       AloneInItsRows(shape, GrownBox(z, x, y, margin as real, size)) {
      forall row: nat, column: nat | row < size && column < size
        ensures SaysBoth(shape, z, x, y, size, row, column, plain[row, column], padded[row + margin, column + margin])
      {
        PaddedPixel(shape, z, x, y, size, 0, row, column, near, plain[row, column]);
        PaddedPixel(shape, z, x, y, size, margin, row, column, farther, padded[row + margin, column + margin]);
      }
    }
  }

  lemma OneBucketIsAlone(shape: Shape, box: Box)
    requires shape.Valid() && shape.cells.grid == 1
    ensures AloneInItsRows(shape, box)
  {
    forall i: nat | i < |shape.segments|
      ensures ListedUnder(shape, box, i)
    {
      assert shape.cells.Touches(shape.segments[i], 0, 0);
    }
  }

  /** The longitude of a share of the world. */
  function Longitude(px: real): real {
    px * 360.0 - 180.0
  }

  /** What bounds enclose is what lies between their meridians and their parallels. */
  lemma BoundsEnclose(west: real, south: real, east: real, north: real, worldY: real -> real, px: real, py: real)
    requires west < east && worldY(north) <= worldY(south)
    ensures Inside(Sides(west, south, east, north, worldY), px, py) <==>
            west <= Longitude(px) < east && worldY(north) <= py < worldY(south)
  {
    RectangleIsItsInside(west, south, east, north, worldY, px, py);
  }

  /** A raster's pixels are spaced evenly and lie as far from one side as from the other. */
  lemma CentresAreEven(low: real, high: real, side: nat, at: nat)
    requires at < side
    ensures var step := (high - low) / side as real;
            && Centre(low, step, at + 1) - Centre(low, step, at) == step
            && Centre(low, step, at) - low == high - Centre(low, step, side - 1 - at)
  {
    var n, step := side as real, (high - low) / side as real;
    assert step * n == high - low;
    assert (side - 1 - at) as real == n - 1.0 - at as real;
    assert (at as real + 0.5) * step + (n - 1.0 - at as real + 0.5) * step == n * step;
  }
}
