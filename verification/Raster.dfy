/**
 The per-pixel mask of a tile the boundary crosses: crossings are found once a
 row and the spans between them filled.
 */
module Raster {
  import opened Geometry
  import opened Cutline
  import opened Classify
  import opened Sorting

  function Ceil(x: real): int {
    -((-x).Floor)
  }

  predicate AtMost(a: real, b: real) {
    a <= b
  }

  /** Where the edges straddling a row meet it, in the order of the edges. */
  function RowCrossings(segments: seq<Segment>, y: real): seq<real> {
    if segments == [] then []
    else
      var rest, last := RowCrossings(segments[..|segments| - 1], y), segments[|segments| - 1];
      if Straddles(last, y) then rest + [CrossingAt(last, y)] else rest
  }

  /** How many of some crossings lie east of x. */
  function East(crossings: seq<real>, x: real): nat {
    if crossings == [] then 0
    else East(crossings[..|crossings| - 1], x) + if x < crossings[|crossings| - 1] then 1 else 0
  }

  lemma {:induction false} EastIsCrossings(segments: seq<Segment>, x: real, y: real)
    ensures East(RowCrossings(segments, y), x) == Crossings(segments, x, y)
  {
    if segments != [] {
      var rest, last := segments[..|segments| - 1], segments[|segments| - 1];
      EastIsCrossings(rest, x, y);
      if Straddles(last, y) {
        assert (RowCrossings(rest, y) + [CrossingAt(last, y)])[..|RowCrossings(rest, y)|] == RowCrossings(rest, y);
      }
    }
  }

  lemma {:induction false} EastOfInserted(s: seq<real>, v: real, x: real)
    ensures East(Insert(s, v, AtMost), x) == East(s, x) + if x < v then 1 else 0
  {
    if s != [] && !AtMost(s[|s| - 1], v) {
      EastOfInserted(s[..|s| - 1], v, x);
      assert Insert(s, v, AtMost)[..|s|] == Insert(s[..|s| - 1], v, AtMost) by { InsertGrows(s[..|s| - 1], v); }
    } else {
      assert (s + [v])[..|s|] == s;
    }
  }

  lemma {:induction false} InsertGrows(s: seq<real>, v: real)
    ensures |Insert(s, v, AtMost)| == |s| + 1
  {
    if s != [] && !AtMost(s[|s| - 1], v) {
      InsertGrows(s[..|s| - 1], v);
    }
  }

  lemma {:induction false} EastOfSorted(s: seq<real>, x: real)
    ensures East(Sort(s, AtMost), x) == East(s, x) && |Sort(s, AtMost)| == |s|
  {
    if s != [] {
      EastOfSorted(s[..|s| - 1], x);
      EastOfInserted(Sort(s[..|s| - 1], AtMost), s[|s| - 1], x);
      InsertGrows(Sort(s[..|s| - 1], AtMost), s[|s| - 1]);
    }
  }

  /** An ascending list splits at any point it does not hold, and what is east is what follows the split. */
  lemma {:induction false} SplitAt(s: seq<real>, x: real) returns (m: nat)
    requires Ascends(s, AtMost) && x !in s
    ensures m <= |s| && East(s, x) == |s| - m
    ensures forall i :: 0 <= i < m ==> s[i] < x
    ensures forall i :: m <= i < |s| ==> x < s[i]
  {
    if s == [] {
      m := 0;
    } else {
      var n := |s| - 1;
      m := SplitAt(s[..n], x);
      assert s[n] in s;
      if s[n] < x {
        assert forall i :: m <= i < n ==> AtMost(s[i], s[n]);
        m := |s|;
      }
    }
  }

  /** The span between a crossing and the one after it, counting in pairs. */
  ghost predicate Spans(crossings: seq<real>, j: nat, x: real) {
    j % 2 == 0 && j + 1 < |crossings| && crossings[j] <= x <= crossings[j + 1]
  }

  /** What the fill paints: the spans of the sorted crossings, taken in pairs. */
  ghost predicate Filled(crossings: seq<real>, x: real) {
    exists j: nat :: Spans(crossings, j, x)
  }

  /** Off the edges, and where crossings come in pairs, filling between them is the even-odd rule. */
  lemma FillIsEvenOdd(crossings: seq<real>, x: real)
    requires Ascends(crossings, AtMost) && x !in crossings && |crossings| % 2 == 0
    ensures Filled(crossings, x) <==> East(crossings, x) % 2 == 1
  {
    var m := SplitAt(crossings, x);
    if m % 2 == 1 {
      assert Spans(crossings, m - 1, x);
    }
    if j: nat :| Spans(crossings, j, x) {
      assert j < m <= j + 1;
    }
  }

  /** Around a closed shape a row is straddled an even number of times. */
  lemma RowIsCrossedInPairs(segments: seq<Segment>, y: real)
    requires MadeOfLoops(segments) && segments != []
    ensures |RowCrossings(segments, y)| % 2 == 0
  {
    var hull := Hull(segments);
    HullBounds(segments);
    var x := hull.left - 1.0;
    OutsideOfBounds(segments, hull, Box(x - 1.0, y - 1.0, hull.left, y + 1.0), x, y);
    EastIsCrossings(segments, x, y);
    AllEast(segments, hull, x, y);
  }

  lemma {:induction false} AllEast(segments: seq<Segment>, hull: Box, x: real, y: real)
    requires Bounds(hull, segments) && x < hull.left
    ensures East(RowCrossings(segments, y), x) == |RowCrossings(segments, y)|
  {
    if segments != [] {
      var rest, last := segments[..|segments| - 1], segments[|segments| - 1];
      AllEast(rest, hull, x, y);
      if Straddles(last, y) {
        CrossingIsBetween(last, y);
        assert last in segments;
        assert (RowCrossings(rest, y) + [CrossingAt(last, y)])[..|RowCrossings(rest, y)|] == RowCrossings(rest, y);
      }
    }
  }

  /** The segments some indices name. */
  function Named(segments: seq<Segment>, found: seq<nat>): (named: seq<Segment>)
    requires forall k :: 0 <= k < |found| ==> found[k] < |segments|
    ensures |named| == |found|
  {
    seq(|found|, k requires 0 <= k < |found| => segments[found[k]])
  }

  /** Every edge straddling the row is among those found. */
  ghost predicate RowIsNear(segments: seq<Segment>, found: seq<nat>, y: real) {
    forall i: nat :: i < |segments| && Straddles(segments[i], y) ==> i in found
  }

  ghost function CrossedBy(segments: seq<Segment>, x: real, y: real): set<nat> {
    set i: nat | i < |segments| && Crosses(segments[i], x, y)
  }

  lemma {:induction false} CrossingsCount(segments: seq<Segment>, x: real, y: real)
    ensures Crossings(segments, x, y) == |CrossedBy(segments, x, y)|
  {
    if segments != [] {
      var n := |segments| - 1;
      CrossingsCount(segments[..n], x, y);
      if Crosses(segments[n], x, y) {
        assert CrossedBy(segments, x, y) == CrossedBy(segments[..n], x, y) + {n};
      } else {
        assert CrossedBy(segments, x, y) == CrossedBy(segments[..n], x, y);
      }
    }
  }

  ghost function CrossedAmong(segments: seq<Segment>, found: seq<nat>, x: real, y: real): set<nat> {
    set i: nat | i in found && i < |segments| && Crosses(segments[i], x, y)
  }

  lemma AmongOneMore(segments: seq<Segment>, rest: seq<nat>, last: nat, x: real, y: real)
    requires last < |segments| && last !in rest
    ensures |CrossedAmong(segments, rest + [last], x, y)| ==
              |CrossedAmong(segments, rest, x, y)| + if Crosses(segments[last], x, y) then 1 else 0
  {
    if Crosses(segments[last], x, y) {
      assert CrossedAmong(segments, rest + [last], x, y) == CrossedAmong(segments, rest, x, y) + {last};
    } else {
      assert CrossedAmong(segments, rest + [last], x, y) == CrossedAmong(segments, rest, x, y);
    }
  }

  lemma {:induction false} NamedCount(segments: seq<Segment>, found: seq<nat>, x: real, y: real)
    requires Distinct(found) && forall k :: 0 <= k < |found| ==> found[k] < |segments|
    ensures Crossings(Named(segments, found), x, y) == |CrossedAmong(segments, found, x, y)|
  {
    if found != [] {
      var n := |found| - 1;
      var rest, last := found[..n], found[n];
      NamedCount(segments, rest, x, y);
      AmongOneMore(segments, rest, last, x, y);
      assert found == rest + [last];
      assert Named(segments, found)[..n] == Named(segments, rest);
    }
  }

  /** Where every edge straddling a row was found, the found ones answer for all of them. */
  lemma NearIsEnough(segments: seq<Segment>, found: seq<nat>, x: real, y: real)
    requires Distinct(found) && (forall k :: 0 <= k < |found| ==> found[k] < |segments|) &&
             RowIsNear(segments, found, y)
    ensures Crossings(Named(segments, found), x, y) == Crossings(segments, x, y)
  {
    CrossingsCount(segments, x, y);
    NamedCount(segments, found, x, y);
    assert CrossedAmong(segments, found, x, y) == CrossedBy(segments, x, y);
  }

  /** The middle of a pixel, along one side of a box. */
  function Centre(low: real, step: real, at: int): real {
    low + (at as real + 0.5) * step
  }

  /** Rounding a crossing up finds the first pixel whose centre has passed it, and down the last that has not. */
  lemma RoundingMeetsCentres(crossing: real, low: real, step: real, at: int)
    requires 0.0 < step
    ensures Ceil((crossing - low) / step - 0.5) <= at <==> crossing <= Centre(low, step, at)
    ensures at <= ((crossing - low) / step - 0.5).Floor <==> Centre(low, step, at) <= crossing
  {
    var t := (crossing - low) / step;
    assert t * step == crossing - low;
    var gap := at as real + 0.5 - t;
    assert Centre(low, step, at) - crossing == gap * step;
    if gap < 0.0 {
      assert gap * step < 0.0;
    } else {
      assert 0.0 <= gap * step;
      if gap > 0.0 {
        assert 0.0 < gap * step;
      }
    }
  }

  /** A pixel's centre lies in one of the first spans. */
  ghost predicate FilledBefore(crossings: seq<real>, x: real, pair: nat) {
    exists j: nat :: j < pair && Spans(crossings, j, x)
  }

  /** Fills the spans between the crossings of one row. */
  method FillRow(mask: array2<bool>, row: nat, crossings: seq<real>, left: real, perPixel: real)
    requires row < mask.Length0 && 0.0 < perPixel
    requires forall c :: 0 <= c < mask.Length1 ==> !mask[row, c]
    modifies mask
    ensures forall c :: 0 <= c < mask.Length1 ==> (mask[row, c] <==> Filled(crossings, Centre(left, perPixel, c)))
    ensures forall r, c :: 0 <= r < mask.Length0 && r != row && 0 <= c < mask.Length1 ==> mask[r, c] == old(mask[r, c])
  {
    var side := mask.Length1;
    var pair := 0;
    while pair + 1 < |crossings|
      invariant pair % 2 == 0 && 0 <= pair <= |crossings|
      invariant forall c :: 0 <= c < side ==>
                (mask[row, c] <==> FilledBefore(crossings, Centre(left, perPixel, c), pair))
      invariant forall r, c :: 0 <= r < mask.Length0 && r != row && 0 <= c < side ==> mask[r, c] == old(mask[r, c])
    {
      var from := Ceil((crossings[pair] - left) / perPixel - 0.5);
      var to := ((crossings[pair + 1] - left) / perPixel - 0.5).Floor;
      FillSpan(mask, row, if from < 0 then 0 else from, if to < side - 1 then to else side - 1);
      forall c | 0 <= c < side
        ensures from <= c <= to <==> Spans(crossings, pair, Centre(left, perPixel, c))
      {
        RoundingMeetsCentres(crossings[pair], left, perPixel, c);
        RoundingMeetsCentres(crossings[pair + 1], left, perPixel, c);
      }
      forall c | 0 <= c < side
        ensures FilledBefore(crossings, Centre(left, perPixel, c), pair + 2) <==>
                  FilledBefore(crossings, Centre(left, perPixel, c), pair) ||
                    Spans(crossings, pair, Centre(left, perPixel, c))
      {
        OnePairMore(crossings, Centre(left, perPixel, c), pair);
      }
      pair := pair + 2;
    }
    forall c | 0 <= c < side
      ensures Filled(crossings, Centre(left, perPixel, c)) <==> FilledBefore(crossings, Centre(left, perPixel, c), pair)
    {
      if j: nat :| Spans(crossings, j, Centre(left, perPixel, c)) {
        assert j < pair;
      }
    }
  }

  lemma OnePairMore(crossings: seq<real>, x: real, pair: nat)
    requires pair % 2 == 0
    ensures FilledBefore(crossings, x, pair + 2) <==> FilledBefore(crossings, x, pair) || Spans(crossings, pair, x)
  {
  }

  method FillSpan(mask: array2<bool>, row: nat, start: int, end: int)
    requires row < mask.Length0 && 0 <= start && end < mask.Length1
    modifies mask
    ensures forall c :: 0 <= c < mask.Length1 ==> mask[row, c] == (old(mask[row, c]) || start <= c <= end)
    ensures forall r, c :: 0 <= r < mask.Length0 && r != row && 0 <= c < mask.Length1 ==> mask[r, c] == old(mask[r, c])
  {
    var column := start;
    while column <= end
      invariant start <= column && (column <= end + 1 || column == start)
      invariant forall c :: 0 <= c < mask.Length1 ==>
                mask[row, c] == (old(mask[row, c]) || (start <= c < column && c <= end))
      invariant forall r, c :: 0 <= r < mask.Length0 && r != row && 0 <= c < mask.Length1 ==>
                mask[r, c] == old(mask[r, c])
    {
      mask[row, column] := true;
      column := column + 1;
    }
  }

  /** The crossings of a row with the candidate edges, one edge at a time. */
  method Collect(candidates: seq<Segment>, y: real) returns (crossings: seq<real>)
    ensures crossings == RowCrossings(candidates, y)
  {
    crossings := [];
    for i := 0 to |candidates|
      invariant crossings == RowCrossings(candidates[..i], y)
    {
      var s := candidates[i];
      assert candidates[..i + 1][..i] == candidates[..i] && candidates[..i + 1][i] == s;
      if (s.a.y > y) != (s.b.y > y) {
        var at := s.a.x + (y - s.a.y) / (s.b.y - s.a.y) * (s.b.x - s.a.x);
        assert at == CrossingAt(s, y);
        crossings := crossings + [at];
      }
    }
    assert candidates[..|candidates|] == candidates;
  }

  /** No edge passes exactly through the point, along its row. */
  ghost predicate OffEdges(segments: seq<Segment>, x: real, y: real) {
    x !in RowCrossings(segments, y)
  }

  /**
   The mask of one tile. A row all of whose straddling edges are near the tile
   -- every row, where the index is a single bucket -- holds the even-odd answer
   against all edges at every pixel centre off the edges; and where no edge is
   near at all, so does the whole mask. In between, a row is what its near edges
   alone would fill.
   */
  ghost predicate RightPixel(shape: Shape, found: seq<nat>, mask: bool, x: real, y: real) {
    && (forall k :: 0 <= k < |found| ==> found[k] < |shape.segments|)
    && (found != [] ==> (mask <==> Filled(Sort(RowCrossings(Named(shape.segments, found), y), AtMost), x)))
    && (found == [] || (RowIsNear(shape.segments, found, y) && OffEdges(shape.segments, x, y)) ==>
          (mask <==> Inside(shape.segments, x, y)))
  }

  lemma CrossingsAreNear(segments: seq<Segment>, found: seq<nat>, y: real, x: real)
    requires forall k :: 0 <= k < |found| ==> found[k] < |segments|
    ensures x in RowCrossings(Named(segments, found), y) ==> x in RowCrossings(segments, y)
  {
    if x in RowCrossings(Named(segments, found), y) {
      var k := HasCrossing(Named(segments, found), y, x);
      CrossingListed(segments, found[k], y);
    }
  }

  lemma {:induction false} HasCrossing(segments: seq<Segment>, y: real, x: real) returns (i: nat)
    requires x in RowCrossings(segments, y)
    ensures i < |segments| && Straddles(segments[i], y) && x == CrossingAt(segments[i], y)
  {
    var n := |segments| - 1;
    if Straddles(segments[n], y) && x == CrossingAt(segments[n], y) {
      i := n;
    } else {
      i := HasCrossing(segments[..n], y, x);
    }
  }

  lemma {:induction false} CrossingListed(segments: seq<Segment>, i: nat, y: real)
    requires i < |segments| && Straddles(segments[i], y)
    ensures CrossingAt(segments[i], y) in RowCrossings(segments, y)
  {
    if i < |segments| - 1 {
      CrossingListed(segments[..|segments| - 1], i, y);
    }
  }

  /** The crossings of a row whose edges are all near come in pairs. */
  lemma NearRowIsCrossedInPairs(shape: Shape, found: seq<nat>, y: real)
    requires shape.Valid() && Distinct(found) && (forall k :: 0 <= k < |found| ==> found[k] < |shape.segments|)
    requires RowIsNear(shape.segments, found, y)
    ensures |RowCrossings(Named(shape.segments, found), y)| % 2 == 0
  {
    HullBounds(shape.segments);
    var x := shape.bbox.left - 1.0;
    var named := Named(shape.segments, found);
    assert Bounds(shape.bbox, named);
    AllEast(named, shape.bbox, x, y);
    AllEast(shape.segments, shape.bbox, x, y);
    EastIsCrossings(named, x, y);
    EastIsCrossings(shape.segments, x, y);
    NearIsEnough(shape.segments, found, x, y);
    RowIsCrossedInPairs(shape.segments, y);
  }

  lemma FilledRowIsRight(shape: Shape, found: seq<nat>, x: real, y: real)
    requires shape.Valid() && Distinct(found) && found != [] &&
             (forall k :: 0 <= k < |found| ==> found[k] < |shape.segments|)
    ensures RightPixel(shape, found, Filled(Sort(RowCrossings(Named(shape.segments, found), y), AtMost), x), x, y)
  {
    if RowIsNear(shape.segments, found, y) && OffEdges(shape.segments, x, y) {
      var crossings := RowCrossings(Named(shape.segments, found), y);
      var sorted := Sort(crossings, AtMost);
      NearRowIsCrossedInPairs(shape, found, y);
      EastOfSorted(crossings, x);
      SortSorts(crossings, AtMost);
      CrossingsAreNear(shape.segments, found, y, x);
      assert x !in sorted by {
        assert x !in multiset(crossings);
      }
      FillIsEvenOdd(sorted, x);
      EastIsCrossings(Named(shape.segments, found), x, y);
      NearIsEnough(shape.segments, found, x, y);
    }
  }

  /** Over a single bucket every edge is near every box. */
  lemma SingleBucketIsAlwaysNear(shape: Shape, box: Box, found: seq<nat>, y: real)
    requires shape.Valid() && shape.cells.grid == 1
    requires forall i: nat :: i in found <==> i < |shape.segments| && ListedUnder(shape, box, i)
    ensures RowIsNear(shape.segments, found, y) && found != []
  {
    forall i: nat | i < |shape.segments|
      ensures i in found
    {
      assert shape.cells.Touches(shape.segments[i], 0, 0);
      assert ListedUnder(shape, box, i);
    }
    assert 0 in found;
  }

  method RasterizeTile(shape: Shape, z: nat, x: nat, y: nat, size: nat, margin: nat)
    returns (mask: array2<bool>, ghost found: seq<nat>)
    requires shape.Valid() && 0 < size
    ensures fresh(mask) && mask.Length0 == mask.Length1 == size + margin * 2
    ensures var box, side := GrownBox(z, x, y, margin as real, size), (size + margin * 2) as real;
            forall row, column :: 0 <= row < mask.Length0 && 0 <= column < mask.Length1 ==>
              RightPixel(shape, found, mask[row, column],
                         Centre(box.left, (box.right - box.left) / side, column),
                         Centre(box.top, (box.bottom - box.top) / side, row))
    ensures forall i: nat :: i in found <==>
            i < |shape.segments| && ListedUnder(shape, GrownBox(z, x, y, margin as real, size), i)
    ensures shape.cells.grid == 1 ==> forall row: real :: RowIsNear(shape.segments, found, row)
  {
    var box := GrownBox(z, x, y, margin as real, size);
    var side := size + margin * 2;
    mask := new bool[side, side]((_, _) => false);
    var candidates := Near(shape, box);
    found := candidates;
    if shape.cells.grid == 1 {
      forall row: real {
        SingleBucketIsAlwaysNear(shape, box, found, row);
      }
    }
    var step := (box.bottom - box.top) / side as real;
    var perPixel := (box.right - box.left) / side as real;
    if |candidates| == 0 {
      FillEmpty(shape, box, mask, side, step, perPixel);
      return;
    }
    assert forall k :: 0 <= k < |candidates| ==> candidates[k] in candidates;
    RasterizeRows(shape, candidates, mask, side, box.left, perPixel, box.top, step);
  }

  method RasterizeRows(shape: Shape, candidates: seq<nat>, mask: array2<bool>, side: nat,
                       left: real, perPixel: real, top: real, step: real)
    requires shape.Valid() && Distinct(candidates) && candidates != []
    requires forall k :: 0 <= k < |candidates| ==> candidates[k] < |shape.segments|
    requires mask.Length0 == mask.Length1 == side && 0.0 < perPixel
    requires forall r, c :: 0 <= r < side && 0 <= c < side ==> !mask[r, c]
    modifies mask
    ensures forall r, c :: 0 <= r < side && 0 <= c < side ==>
      RightPixel(shape, candidates, mask[r, c], Centre(left, perPixel, c), Centre(top, step, r))
  {
    for row := 0 to side
      invariant forall r, c :: row <= r < side && 0 <= c < side ==> !mask[r, c]
      invariant forall r, c :: 0 <= r < row && 0 <= c < side ==>
        RightPixel(shape, candidates, mask[r, c], Centre(left, perPixel, c), Centre(top, step, r))
    {
      var worldRow := top + (row as real + 0.5) * step;
      assert worldRow == Centre(top, step, row);
      RasterizeRow(shape, candidates, mask, row, left, perPixel, worldRow);
    }
  }

  /** Down the middle of one row, which is where the pixels are. */
  method RasterizeRow(shape: Shape, candidates: seq<nat>, mask: array2<bool>, row: nat, left: real, perPixel: real,
                      worldRow: real)
    requires shape.Valid() && Distinct(candidates) && candidates != []
    requires forall k :: 0 <= k < |candidates| ==> candidates[k] < |shape.segments|
    requires row < mask.Length0 && 0.0 < perPixel
    requires forall c :: 0 <= c < mask.Length1 ==> !mask[row, c]
    modifies mask
    ensures forall c :: 0 <= c < mask.Length1 ==>
            RightPixel(shape, candidates, mask[row, c], Centre(left, perPixel, c), worldRow)
    ensures forall r, c :: 0 <= r < mask.Length0 && r != row && 0 <= c < mask.Length1 ==> mask[r, c] == old(mask[r, c])
  {
    var crossings := Collect(Named(shape.segments, candidates), worldRow);
    FillRow(mask, row, Sort(crossings, AtMost), left, perPixel);
    forall c | 0 <= c < mask.Length1
      ensures RightPixel(shape, candidates, mask[row, c], Centre(left, perPixel, c), worldRow)
    {
      FilledRowIsRight(shape, candidates, Centre(left, perPixel, c), worldRow);
    }
  }

  /** A pixel's centre lies within the box. */
  lemma CentresAreWithin(low: real, high: real, side: nat, at: nat)
    requires low < high && at < side
    ensures low < Centre(low, (high - low) / side as real, at) < high
  {
    var step := (high - low) / side as real;
    assert 0.0 < step && step * side as real == high - low;
    var t := at as real + 0.5;
    assert 0.0 < t * step;
    assert (side as real - t) * step > 0.0;
  }

  /** Where no edge is near, one answer does for the whole tile. */
  method FillEmpty(shape: Shape, box: Box, mask: array2<bool>, side: nat, step: real, perPixel: real)
    requires shape.Valid() && 0 < side == mask.Length0 == mask.Length1 && box.left < box.right && box.top < box.bottom
    requires step == (box.bottom - box.top) / side as real && perPixel == (box.right - box.left) / side as real
    requires forall i: nat :: i < |shape.segments| ==> !Reaches(shape.segments[i], box)
    requires forall r, c :: 0 <= r < side && 0 <= c < side ==> !mask[r, c]
    modifies mask
    ensures forall r, c :: 0 <= r < side && 0 <= c < side ==>
      RightPixel(shape, [], mask[r, c], Centre(box.left, perPixel, c), Centre(box.top, step, r))
  {
    var middle := (box.left + box.right) / 2.0;
    var centre := (box.top + box.bottom) / 2.0;
    var inside := Contains(shape.segments, middle, centre);
    if inside {
      forall r, c | 0 <= r < side && 0 <= c < side {
        mask[r, c] := true;
      }
    }
    forall r, c | 0 <= r < side && 0 <= c < side
      ensures RightPixel(shape, [], mask[r, c], Centre(box.left, perPixel, c), Centre(box.top, step, r))
    {
      CentresAreWithin(box.left, box.right, side, c);
      CentresAreWithin(box.top, box.bottom, side, r);
      EmptyBoxHasOneAnswer(shape.segments, box, middle, centre, Centre(box.left, perPixel, c),
                           Centre(box.top, step, r));
    }
  }
}
