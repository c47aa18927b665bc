/**
 The cheap question asked of every tile: wholly inside the shape, wholly
 outside, or across its edge.
 */
module Classify {
  import opened Geometry
  import opened Cutline
  import opened Powers

  /** The box a tile covers, as fractions of the world. */
  function TileBox(z: nat, x: nat, y: nat): (box: Box)
    ensures box.left < box.right && box.top < box.bottom
  {
    var span := 1.0 / Pow2(z) as real;
    Box(x as real * span, y as real * span, (x + 1) as real * span, (y + 1) as real * span)
  }

  /** A tile's box widened by a border of its own pixels. */
  function GrownBox(z: nat, x: nat, y: nat, margin: real, size: nat): (box: Box)
    requires 0 < size
    ensures box.left < box.right && box.top < box.bottom
  {
    var box := TileBox(z, x, y);
    if !(margin > 0.0) then box
    else
      var perPixel := (box.right - box.left) / size as real;
      var step := (box.bottom - box.top) / size as real;
      assert 0.0 < perPixel && 0.0 < step;
      assert 0.0 < margin * perPixel && 0.0 < margin * step;
      Box(box.left - margin * perPixel, box.top - margin * step, box.right + margin * perPixel,
          box.bottom + margin * step)
  }

  /** Adds what a bucket lists to what has been seen, keeping the order things were first seen in. */
  function Seen(found: seq<nat>, bucket: seq<nat>): seq<nat> {
    if bucket == [] then found
    else
      var rest := Seen(found, bucket[..|bucket| - 1]);
      if bucket[|bucket| - 1] in rest then rest else rest + [bucket[|bucket| - 1]]
  }

  ghost predicate Distinct(s: seq<nat>) {
    forall i, j :: 0 <= i < j < |s| ==> s[i] != s[j]
  }

  lemma {:induction false} SeenHolds(found: seq<nat>, bucket: seq<nat>)
    requires Distinct(found)
    ensures forall i: nat :: i in Seen(found, bucket) <==> i in found || i in bucket
    ensures Distinct(Seen(found, bucket))
  {
    if bucket != [] {
      SeenHolds(found, bucket[..|bucket| - 1]);
      assert bucket == bucket[..|bucket| - 1] + [bucket[|bucket| - 1]];
    }
  }

  /** The cells a box overlaps touch every edge that reaches into it. */
  lemma ReachingEdgeIsListed(cells: Cells, s: Segment, box: Box) returns (row: nat, column: nat)
    requires cells.Valid() && Reaches(s, box) && box.left <= box.right && box.top <= box.bottom
    ensures cells.Row(box.top) <= row <= cells.Row(box.bottom)
    ensures cells.Column(box.left) <= column <= cells.Column(box.right)
    ensures cells.Touches(s, row, column)
  {
    cells.CellsAscend(s.Left(), box.right);
    cells.CellsAscend(box.left, s.Right());
    cells.CellsAscend(box.left, box.right);
    cells.CellsAscend(s.Left(), s.Right());
    cells.RowsAscend(s.Top(), box.bottom);
    cells.RowsAscend(box.top, s.Bottom());
    cells.RowsAscend(box.top, box.bottom);
    cells.RowsAscend(s.Top(), s.Bottom());
    var r, c := cells.Row(s.Top()), cells.Column(s.Left());
    row := if r < cells.Row(box.top) then cells.Row(box.top) else r;
    column := if c < cells.Column(box.left) then cells.Column(box.left) else c;
  }

  /** Some cell under the box lists the edge. */
  ghost predicate ListedUnder(shape: Shape, box: Box, i: nat)
    requires shape.Valid() && i < |shape.segments|
  {
    exists row: nat, column: nat ::
      && shape.cells.Row(box.top) <= row <= shape.cells.Row(box.bottom)
      && shape.cells.Column(box.left) <= column <= shape.cells.Column(box.right)
      && shape.cells.Touches(shape.segments[i], row, column)
  }

  ghost predicate FoundInRow(shape: Shape, row: nat, c0: nat, c1: nat, before: seq<nat>, found: seq<nat>)
    requires shape.Valid()
  {
    forall i: nat :: i in found <==>
      i in before ||
        (i < |shape.segments| && exists c: nat :: c0 <= c <= c1 && shape.cells.Touches(shape.segments[i], row, c))
  }

  /** An edge is listed in one of the cells of these rows and columns. */
  ghost predicate InRows(shape: Shape, r0: nat, end: nat, c0: nat, c1: nat, i: nat)
    requires shape.Valid()
  {
    i < |shape.segments| && exists r: nat, c: nat ::
      r0 <= r < end && c0 <= c <= c1 && shape.cells.Touches(shape.segments[i], r, c)
  }

  ghost predicate FoundInRows(shape: Shape, r0: nat, end: nat, c0: nat, c1: nat, found: seq<nat>)
    requires shape.Valid()
  {
    forall i: nat :: i in found <==> InRows(shape, r0, end, c0, c1, i)
  }

  lemma NoRows(shape: Shape, r0: nat, c0: nat, c1: nat)
    requires shape.Valid()
    ensures FoundInRows(shape, r0, r0, c0, c1, [])
  {
    hide Shape.Valid, Cells.Touches;
  }

  lemma OneMoreRow(shape: Shape, r0: nat, row: nat, c0: nat, c1: nat, before: seq<nat>, found: seq<nat>)
    requires shape.Valid() && r0 <= row
    requires FoundInRows(shape, r0, row, c0, c1, before) && FoundInRow(shape, row, c0, c1, before, found)
    ensures FoundInRows(shape, r0, row + 1, c0, c1, found)
  {
    hide Shape.Valid, Cells.Touches;
    forall i: nat
      ensures i in found <==> InRows(shape, r0, row + 1, c0, c1, i)
    {
      assert i in before <==> InRows(shape, r0, row, c0, c1, i);
    }
  }

  lemma RowsAreListed(shape: Shape, box: Box, found: seq<nat>)
    requires shape.Valid()
    requires FoundInRows(shape, shape.cells.Row(box.top), shape.cells.Row(box.bottom) + 1,
                         shape.cells.Column(box.left), shape.cells.Column(box.right), found)
    ensures forall i: nat :: i in found <==> i < |shape.segments| && ListedUnder(shape, box, i)
  {
    hide Shape.Valid, Cells.Touches, Cells.Row, Cells.Column;
  }

  lemma ReachingIsListed(shape: Shape, box: Box, i: nat)
    requires shape.Valid() && box.left <= box.right && box.top <= box.bottom
    requires i < |shape.segments| && Reaches(shape.segments[i], box)
    ensures ListedUnder(shape, box, i)
  {
    hide Cells.Touches, Cells.Row, Cells.Column, Reaches;
    var r, c := ReachingEdgeIsListed(shape.cells, shape.segments[i], box);
  }

  /** One row of cells: what it lists is added to what was found before. */
  method NearRow(shape: Shape, row: nat, c0: nat, c1: nat, before: seq<nat>) returns (found: seq<nat>)
    requires shape.Valid() && row < shape.cells.grid && c0 <= c1 < shape.cells.grid && Distinct(before)
    ensures Distinct(found) && FoundInRow(shape, row, c0, c1, before, found)
  {
    var n := |shape.segments|;
    found := before;
    for column := c0 to c1 + 1
      invariant forall i: nat :: i in found <==>
        i in before || (i < n && exists c: nat :: c0 <= c < column && shape.cells.Touches(shape.segments[i], row, c))
      invariant Distinct(found)
    {
      var bucket := shape.buckets[(row, column)];
      SeenHolds(found, bucket);
      ListedMeans(shape.cells, shape.segments, row, column, n);
      found := Seen(found, bucket);
    }
  }

  lemma NoneTwice()
    ensures Distinct([])
  {
  }

  /** The indices of every edge that could reach a box, without walking all of them. */
  method Near(shape: Shape, box: Box) returns (found: seq<nat>)
    requires shape.Valid() && box.left <= box.right && box.top <= box.bottom
    ensures forall i: nat :: i in found <==> i < |shape.segments| && ListedUnder(shape, box, i)
    ensures forall i: nat :: i < |shape.segments| && Reaches(shape.segments[i], box) ==> i in found
    ensures Distinct(found)
  {
    var cells := shape.cells;
    var c0, r0 := cells.Column(box.left), cells.Row(box.top);
    var c1, r1 := cells.Column(box.right), cells.Row(box.bottom);
    cells.CellsAscend(box.left, box.right);
    cells.RowsAscend(box.top, box.bottom);
    found := [];
    hide *;
    NoRows(shape, r0, c0, c1);
    NoneTwice();
    for row := r0 to r1 + 1
      invariant FoundInRows(shape, r0, row, c0, c1, found) && Distinct(found)
    {
      var before := found;
      found := NearRow(shape, row, c0, c1, before);
      OneMoreRow(shape, r0, row, c0, c1, before, found);
    }
    RowsAreListed(shape, box, found);
    forall i: nat | i < |shape.segments| && Reaches(shape.segments[i], box)
      ensures i in found
    {
      ReachingIsListed(shape, box, i);
    }
  }

  predicate Apart(box: Box, bbox: Box) {
    box.right <= bbox.left || box.left >= bbox.right || box.bottom <= bbox.top || box.top >= bbox.bottom
  }

  /** Whether a point is inside, one edge at a time. */
  method Contains(segments: seq<Segment>, x: real, y: real) returns (inside: bool)
    ensures inside == Inside(segments, x, y)
  {
    inside := false;
    for i := 0 to |segments|
      invariant inside == Inside(segments[..i], x, y)
    {
      var s := segments[i];
      InsideOfLast(segments[..i + 1], x, y);
      assert segments[..i + 1][..i] == segments[..i];
      if (s.a.y > y) != (s.b.y > y) {
        var at := s.a.x + (y - s.a.y) / (s.b.y - s.a.y) * (s.b.x - s.a.x);
        if x < at {
          inside := !inside;
        }
      }
    }
    assert segments[..|segments|] == segments;
  }

  /** Some of the candidate edges reach into the box. */
  method AnyReaches(shape: Shape, candidates: seq<nat>, box: Box) returns (crosses: bool)
    requires forall k :: 0 <= k < |candidates| ==> candidates[k] < |shape.segments|
    ensures crosses <==> exists i: nat :: i in candidates && Reaches(shape.segments[i], box)
  {
    for at := 0 to |candidates|
      invariant forall k :: 0 <= k < at ==> !Reaches(shape.segments[candidates[k]], box)
    {
      var s := shape.segments[candidates[at]];
      if s.Right() > box.left && s.Left() < box.right && s.Bottom() > box.top && s.Top() < box.bottom {
        assert candidates[at] in candidates;
        return true;
      }
    }
    return false;
  }

  /** Some edge of the shape, near or not, reaches into the box. */
  ghost predicate EdgeInBox(shape: Shape, box: Box) {
    exists i :: 0 <= i < |shape.segments| && Reaches(shape.segments[i], box)
  }

  /** Looking near the box is looking everywhere. */
  method CrossedByAnEdge(shape: Shape, box: Box) returns (crosses: bool)
    requires shape.Valid() && box.left <= box.right && box.top <= box.bottom
    ensures crosses <==> EdgeInBox(shape, box)
  {
    var candidates := Near(shape, box);
    assert forall k :: 0 <= k < |candidates| ==> candidates[k] in candidates;
    crosses := AnyReaches(shape, candidates, box);
  }

  /**
   Classifies a tile. The answers that cost nothing are sound at every interior
   point of the grown box, against every edge of the shape; the costly one is
   given exactly when the boxes meet and an edge reaches in.
   */
  method ClassifyTile(shape: Shape, z: nat, x: nat, y: nat, margin: real, size: nat) returns (answer: Answer)
    requires shape.Valid() && 0 < size
    ensures var box := GrownBox(z, x, y, margin, size);
            && (answer == Partial <==> !Apart(box, shape.bbox) && EdgeInBox(shape, box))
            && (answer == Insides ==> forall px, py :: box.Within(px, py) ==> Inside(shape.segments, px, py))
            && (answer == Outside ==> forall px, py :: box.Within(px, py) ==> !Inside(shape.segments, px, py))
  {
    var box := GrownBox(z, x, y, margin, size);
    HullBounds(shape.segments);
    if Apart(box, shape.bbox) {
      forall px, py | box.Within(px, py)
        ensures !Inside(shape.segments, px, py)
      {
        OutsideOfBounds(shape.segments, shape.bbox, box, px, py);
      }
      return Outside;
    }
    var crosses := CrossedByAnEdge(shape, box);
    if crosses {
      return Partial;
    }
    var middle := (box.left + box.right) / 2.0;
    var centre := (box.top + box.bottom) / 2.0;
    var inside := Contains(shape.segments, middle, centre);
    forall px, py | box.Within(px, py)
      ensures Inside(shape.segments, px, py) == inside
    {
      assert forall s :: s in shape.segments ==> !Reaches(s, box);
      EmptyBoxHasOneAnswer(shape.segments, box, middle, centre, px, py);
    }
    answer := if inside then Insides else Outside;
  }
}
