/**
 Ground taken from a parent tile and smoothed. A tile is given a border of its
 neighbours' ground to smooth with, so that no seam shows where two tiles meet.
 */
module Blur {
  import opened Archive

  /** Metres, or nothing where there is no data. */
  type Height = Option<real>

  type Rows = seq<seq<Height>>

  /** Heights at every whole position, however far out. */
  type Plane = (int, int) -> Height

  /** How much a sample counts at a distance, and how far samples reach. */
  datatype Kernel = Kernel(weight: real -> real, reach: nat)

  datatype Sum = Sum(total: real, weight: real) {
    /** One more sample, which counts for nothing where it has no data. */
    function With(h: Height, w: real): Sum {
      if h.None? then this else Sum(total + h.value * w, weight + w)
    }

    function Mean(): Height {
      if weight == 0.0 then None else Some(total / weight)
    }

    /** Where every weight is positive. */
    function Level(): Height {
      if weight > 0.0 then Some(total / weight) else None
    }
  }

  const NOTHING := Sum(0.0, 0.0)

  function Clamped(i: int, size: nat): (c: nat)
    requires 0 < size
    ensures c < size && (0 <= i < size ==> c == i)
  {
    if i < 0 then 0 else if i >= size then size - 1 else i
  }

  ghost predicate IsSquare(rows: Rows, size: nat) {
    |rows| == size && forall y :: 0 <= y < size ==> |rows[y]| == size
  }

  /** What an array holds, row by row. */
  ghost predicate Holds(a: array2<Height>, rows: Rows)
    reads a
  {
    && |rows| == a.Length0 && (forall y :: 0 <= y < a.Length0 ==> |rows[y]| == a.Length1)
    && forall y, x :: 0 <= y < a.Length0 && 0 <= x < a.Length1 ==> rows[y][x] == a[y, x]
  }

  ghost function RowsOf(a: array2<Height>): (rows: Rows)
    reads a
    ensures Holds(a, rows)
  {
    seq(a.Length0, y requires 0 <= y < a.Length0 reads a =>
          seq(a.Length1, x requires 0 <= x < a.Length1 reads a => a[y, x]))
  }

  // ---- Taking ground from a parent

  /** The sample so many from the one a place lies in, and how much it counts. */
  function Near(place: real, d: int): int {
    place.Floor + d
  }

  function WeightOf(kernel: Kernel, place: real, d: int): real {
    kernel.weight(place - Near(place, d) as real)
  }

  /** What a row of samples around a place adds, those before the n-th. */
  function AcrossSum(row: seq<Height>, kernel: Kernel, sx: real, wy: real, n: int, before: Sum): Sum
    requires row != []
    decreases n + kernel.reach
  {
    if n <= 1 - kernel.reach then before
    else
      var sum := AcrossSum(row, kernel, sx, wy, n - 1, before);
      var w := wy * WeightOf(kernel, sx, n - 1);
      if w == 0.0 then sum else sum.With(row[Clamped(Near(sx, n - 1), |row|)], w)
  }

  function AllSum(rows: Rows, size: nat, kernel: Kernel, sx: real, sy: real, n: int): Sum
    requires 0 < size && IsSquare(rows, size)
    decreases n + kernel.reach
  {
    if n <= 1 - kernel.reach then NOTHING
    else
      var sum := AllSum(rows, size, kernel, sx, sy, n - 1);
      var wy := WeightOf(kernel, sy, n - 1);
      if wy == 0.0 then sum else AcrossSum(rows[Clamped(Near(sy, n - 1), size)], kernel, sx, wy, kernel.reach + 1, sum)
  }

  /** The ground at a place of the parent: the samples around it, weighed, those without data left out. */
  function Sample(rows: Rows, size: nat, kernel: Kernel, sx: real, sy: real): Height
    requires 0 < size && IsSquare(rows, size)
  {
    AllSum(rows, size, kernel, sx, sy, kernel.reach + 1).Mean()
  }

  /** Where a position of the upscaled plane lies in the parent: the middle of a pixel of one, measured in the other. */
  function InParent(at: int, span: nat): real
    requires 0 < span
  {
    (at as real + 0.5) / span as real - 0.5
  }

  /** The whole parent upscaled. Each position of it is what it is whatever tile is asked for. */
  function Upscaled(rows: Rows, size: nat, kernel: Kernel, span: nat): Plane
    requires 0 < size && 0 < span && IsSquare(rows, size)
  {
    (x: int, y: int) => Sample(rows, size, kernel, InParent(x, span), InParent(y, span))
  }

  lemma UpscaledAt(rows: Rows, size: nat, kernel: Kernel, span: nat, x: int, y: int)
    requires 0 < size && 0 < span && IsSquare(rows, size)
    ensures Upscaled(rows, size, kernel, span)(x, y) == Sample(rows, size, kernel, InParent(x, span), InParent(y, span))
  {
  }

  lemma Cancels(a: real, b: real, m: real)
    requires m != 0.0 && a * m == b * m
    ensures a == b
  {
    assert (a - b) * m == 0.0;
  }

  lemma Regroups(a: real, b: real, c: real)
    ensures a * b * c == a * (b * c) == a * c * b
  {
  }

  lemma Quotient(q: real, a: real, n: real)
    requires n != 0.0 && q * n == a
    ensures q == a / n
  {
  }

  lemma PartOfPlace(a: real, s: real, n: real)
    requires s > 0.0 && n > 0.0
    ensures a * (s / n) / s == a / n
  {
    var sub, q := s / n, a * (s / n) / s;
    assert sub * n == s && q * s == a * sub;
    Regroups(q, s, n);
    Regroups(a, sub, n);
    assert q * n * s == a * s;
    Cancels(q * n, a, s);
    Quotient(q, a, n);
  }

  lemma WholeOfPlace(k: real, s: real, n: real)
    requires n > 0.0
    ensures k * (s / n) == k * s / n
  {
    assert s / n * n == s;
    Regroups(k, s / n, n);
    Quotient(k * (s / n), k * s, n);
  }

  lemma QuotientsAdd(a: real, b: real, n: real)
    requires n > 0.0
    ensures a / n + b / n == (a + b) / n
  {
    assert (a / n + b / n) * n == a / n * n + b / n * n == a + b;
    Quotient(a / n + b / n, a + b, n);
  }

  /** Where a pixel of a tile with a border lies in the parent, by the tile's own arithmetic. */
  function Place(origin: real, t: int, margin: nat, sub: real, size: nat): real
    requires 0 < size
  {
    origin + ((t - margin) as real + 0.5) * sub / size as real - 0.5
  }

  function Part(size: nat, span: nat): real
    requires 0 < span
  {
    size as real / span as real
  }

  /** Where a tile begins in the upscaled parent. */
  function Corner(x: nat, span: nat, size: nat): nat
    requires 0 < span
  {
    x % span * size
  }

  function Origin(x: nat, span: nat, size: nat): real
    requires 0 < span
  {
    (x % span) as real * Part(size, span)
  }

  /** That is the same place, wherever the tile's border begins. */
  lemma SamePlace(size: nat, span: nat, x: nat, t: int, margin: nat)
    requires 0 < size && 0 < span
    ensures Place(Origin(x, span, size), t, margin, Part(size, span), size) ==
            InParent(Corner(x, span, size) - margin + t, span)
  {
    var s, n, k, a := size as real, span as real, x % span, (t - margin) as real + 0.5;
    var at := Corner(x, span, size) - margin + t;
    assert (k * size) as real == k as real * s;
    assert at as real + 0.5 == k as real * s + a;
    PartOfPlace(a, s, n);
    WholeOfPlace(k as real, s, n);
    QuotientsAdd(k as real * s, a, n);
    PlaceIs(Origin(x, span, size), t, margin, Part(size, span), size, a * Part(size, span) / s);
    InParentIs(at, span, (k as real * s + a) / n);
  }

  lemma PixelIs(rows: Rows, size: nat, kernel: Kernel, span: nat, x: nat, y: nat, tx: int, ty: int, margin: nat)
    requires 0 < size && 0 < span && IsSquare(rows, size)
    ensures var sub := Part(size, span);
            Sample(rows, size, kernel, Place(Origin(x, span, size), tx, margin, sub, size),
                   Place(Origin(y, span, size), ty, margin, sub, size)) ==
            Upscaled(rows, size, kernel, span)(Corner(x, span, size) - margin + tx, Corner(y, span, size) - margin + ty)
  {
    hide *;
    SamePlace(size, span, x, tx, margin);
    SamePlace(size, span, y, ty, margin);
    UpscaledAt(rows, size, kernel, span, Corner(x, span, size) - margin + tx, Corner(y, span, size) - margin + ty);
  }

  lemma PlaceIs(origin: real, t: int, margin: nat, sub: real, size: nat, part: real)
    requires 0 < size && part == ((t - margin) as real + 0.5) * sub / size as real
    ensures Place(origin, t, margin, sub, size) == origin + part - 0.5
  {
  }

  lemma InParentIs(at: int, span: nat, place: real)
    requires 0 < span && place == (at as real + 0.5) / span as real
    ensures InParent(at, span) == place - 0.5
  {
  }

  lemma AcrossOneMore(row: seq<Height>, kernel: Kernel, sx: real, wy: real, dx: int, before: Sum)
    requires row != [] && dx >= 1 - kernel.reach
    ensures var sum := AcrossSum(row, kernel, sx, wy, dx, before);
            var w := wy * WeightOf(kernel, sx, dx);
            AcrossSum(row, kernel, sx, wy, dx + 1, before) ==
            if w == 0.0 then sum else sum.With(row[Clamped(Near(sx, dx), |row|)], w)
  {
    var n := dx + 1;
    assert n - 1 == dx;
    assert AcrossSum(row, kernel, sx, wy, n, before) ==
           var sum := AcrossSum(row, kernel, sx, wy, n - 1, before);
           var w := wy * WeightOf(kernel, sx, n - 1);
           if w == 0.0 then sum else sum.With(row[Clamped(Near(sx, n - 1), |row|)], w);
  }

  lemma AllOneMore(rows: Rows, size: nat, kernel: Kernel, sx: real, sy: real, dy: int)
    requires 0 < size && IsSquare(rows, size) && dy >= 1 - kernel.reach
    ensures var sum := AllSum(rows, size, kernel, sx, sy, dy);
            var wy := WeightOf(kernel, sy, dy);
            AllSum(rows, size, kernel, sx, sy, dy + 1) ==
            if wy == 0.0 then sum
              else AcrossSum(rows[Clamped(Near(sy, dy), size)], kernel, sx, wy, kernel.reach + 1, sum)
  {
    hide AcrossSum, Clamped, WeightOf, Near;
  }

  lemma NothingSummed(rows: Rows, size: nat, kernel: Kernel, sx: real, sy: real)
    requires 0 < size && IsSquare(rows, size)
    ensures AllSum(rows, size, kernel, sx, sy, 1 - kernel.reach) == NOTHING
    ensures Sample(rows, size, kernel, sx, sy) == AllSum(rows, size, kernel, sx, sy, kernel.reach + 1).Mean()
  {
  }

  lemma NothingAcross(row: seq<Height>, kernel: Kernel, sx: real, wy: real, before: Sum)
    requires row != []
    ensures AcrossSum(row, kernel, sx, wy, 1 - kernel.reach, before) == before
  {
  }

  lemma RowHeld(heights: array2<Height>, rows: Rows, py: nat)
    requires Holds(heights, rows) && py < heights.Length0
    ensures |rows| == heights.Length0 && |rows[py]| == heights.Length1
    ensures forall px :: 0 <= px < heights.Length1 ==> heights[py, px] == rows[py][px]
  {
  }

  /** One row of the samples around a place. */
  method SampleRow(heights: array2<Height>, py: nat, kernel: Kernel, sx: real, wy: real, before: Sum, ghost rows: Rows)
    returns (sum: Sum)
    requires py < heights.Length0 && 0 < heights.Length1 && Holds(heights, rows)
    ensures py < |rows| && rows[py] != [] && sum == AcrossSum(rows[py], kernel, sx, wy, kernel.reach + 1, before)
  {
    hide *;
    RowHeld(heights, rows, py);
    var size := heights.Length1;
    sum := before;
    NothingAcross(rows[py], kernel, sx, wy, before);
    for dx: int := 1 - kernel.reach to kernel.reach + 1
      invariant sum == AcrossSum(rows[py], kernel, sx, wy, dx, before)
    {
      AcrossOneMore(rows[py], kernel, sx, wy, dx, before);
      var px := Clamped(Near(sx, dx), size);
      var w := wy * WeightOf(kernel, sx, dx);
      if w != 0.0 {
        sum := sum.With(heights[py, px], w);
      }
    }
  }

  method SampleParent(heights: array2<Height>, kernel: Kernel, sx: real, sy: real, ghost rows: Rows) returns (h: Height)
    requires 0 < heights.Length0 == heights.Length1 && Holds(heights, rows)
    ensures IsSquare(rows, heights.Length0) && h == Sample(rows, heights.Length0, kernel, sx, sy)
  {
    hide *;
    HoldsSquare(heights, rows);
    var size := heights.Length0;
    var sum := NOTHING;
    NothingSummed(rows, size, kernel, sx, sy);
    for dy: int := 1 - kernel.reach to kernel.reach + 1
      invariant sum == AllSum(rows, size, kernel, sx, sy, dy)
    {
      AllOneMore(rows, size, kernel, sx, sy, dy);
      var py := Clamped(Near(sy, dy), size);
      var wy := WeightOf(kernel, sy, dy);
      if wy != 0.0 {
        sum := SampleRow(heights, py, kernel, sx, wy, sum, rows);
      }
    }
    h := sum.Mean();
  }

  /** The first rows of a raster are a window of a plane. */
  ghost predicate ShowsRows(a: array2<Height>, plane: Plane, left: int, top: int, n: int)
    reads a
  {
    forall r, c :: 0 <= r < n && r < a.Length0 && 0 <= c < a.Length1 ==> a[r, c] == plane(left + c, top + r)
  }

  /** A tile with its border, taken from the parent: each pixel is the upscaled plane's, at its own position. */
  method ResampleFromParent(heights: array2<Height>, span: nat, x: nat, y: nat, kernel: Kernel, margin: nat,
                            ghost rows: Rows)
    returns (out: array2<Height>)
    requires 0 < heights.Length0 == heights.Length1 && 0 < span && Holds(heights, rows)
    ensures fresh(out) && out.Length0 == out.Length1 == heights.Length0 + margin * 2
    ensures var size := heights.Length0;
            Shows(out, Upscaled(rows, size, kernel, span), Corner(x, span, size) - margin,
                  Corner(y, span, size) - margin)
  {
    var size := heights.Length0;
    var side := size + margin * 2;
    out := new Height[side, side]((_, _) => None);
    var sub := Part(size, span);
    ghost var plane := Upscaled(rows, size, kernel, span);
    var originX, originY := Origin(x, span, size), Origin(y, span, size);
    ghost var left, top := Corner(x, span, size) - margin, Corner(y, span, size) - margin;
    hide *;
    HoldsSquare(heights, rows);
    StartsShowing(out, plane, left, top);
    for ty := 0 to side
      invariant ShowsRows(out, plane, left, top, ty)
    {
      var sy := Place(originY, ty, margin, sub, size);
      NoneYet(out, plane, left, top, ty);
      for tx := 0 to side
        invariant ShowsRows(out, plane, left, top, ty) && ShowsSome(out, plane, left, top, ty, tx)
      {
        var sx := Place(originX, tx, margin, sub, size);
        PixelIs(rows, size, kernel, span, x, y, tx, ty, margin);
        var h := SampleParent(heights, kernel, sx, sy, rows);
        SetPixel(out, ty, tx, h, plane, left, top);
      }
      RowShown(out, plane, left, top, ty);
    }
    AllShown(out, plane, left, top);
  }

  /** So are some pixels of the next. */
  ghost predicate ShowsSome(a: array2<Height>, plane: Plane, left: int, top: int, r: int, n: int)
    reads a
  {
    0 <= r < a.Length0 ==> forall c :: 0 <= c < n && c < a.Length1 ==> a[r, c] == plane(left + c, top + r)
  }

  method SetPixel(a: array2<Height>, r: nat, c: nat, h: Height, ghost plane: Plane, ghost left: int, ghost top: int)
    requires r < a.Length0 && c < a.Length1 && h == plane(left + c, top + r)
    requires ShowsRows(a, plane, left, top, r) && ShowsSome(a, plane, left, top, r, c)
    modifies a
    ensures ShowsRows(a, plane, left, top, r) && ShowsSome(a, plane, left, top, r, c + 1)
  {
    a[r, c] := h;
  }

  lemma StartsShowing(a: array2<Height>, plane: Plane, left: int, top: int)
    ensures ShowsRows(a, plane, left, top, 0)
  {
  }

  lemma NoneYet(a: array2<Height>, plane: Plane, left: int, top: int, r: nat)
    ensures ShowsSome(a, plane, left, top, r, 0)
  {
  }

  lemma RowShown(a: array2<Height>, plane: Plane, left: int, top: int, r: nat)
    requires r < a.Length0 && ShowsRows(a, plane, left, top, r) && ShowsSome(a, plane, left, top, r, a.Length1)
    ensures ShowsRows(a, plane, left, top, r + 1)
  {
  }

  lemma AllShown(a: array2<Height>, plane: Plane, left: int, top: int)
    requires ShowsRows(a, plane, left, top, a.Length0)
    ensures Shows(a, plane, left, top)
  {
  }

  lemma HoldsSquare(a: array2<Height>, rows: Rows)
    requires a.Length0 == a.Length1 && Holds(a, rows)
    ensures IsSquare(rows, a.Length0)
  {
  }

  /** A raster is a window of a plane, from a position on. */
  ghost predicate Shows(a: array2<Height>, plane: Plane, left: int, top: int)
    reads a
  {
    forall r, c :: 0 <= r < a.Length0 && 0 <= c < a.Length1 ==> a[r, c] == plane(left + c, top + r)
  }

  // ---- Smoothing

  /** What a stretch of a line around a place adds, held at the line's ends, those before the n-th. */
  function ClampedSum(line: seq<Height>, weigh: int -> real, radius: nat, at: int, n: int): Sum
    requires line != []
    decreases n + radius
  {
    if n <= -(radius as int) then NOTHING
    else ClampedSum(line, weigh, radius, at, n - 1).With(line[Clamped(at + n - 1, |line|)], weigh(n - 1))
  }

  /** The same along a line without ends. */
  function OpenSum(line: int -> Height, weigh: int -> real, radius: nat, at: int, n: int): Sum
    decreases n + radius
  {
    if n <= -(radius as int) then NOTHING
    else OpenSum(line, weigh, radius, at, n - 1).With(line(at + n - 1), weigh(n - 1))
  }

  function Smoothed(line: int -> Height, weigh: int -> real, radius: nat, at: int): Height {
    OpenSum(line, weigh, radius, at, radius + 1).Level()
  }

  function RowLine(plane: Plane, y: int): int -> Height {
    (x: int) => plane(x, y)
  }

  /** A column of a plane smoothed along its rows. */
  function SmoothedAcross(plane: Plane, weigh: int -> real, radius: nat, x: int): int -> Height {
    (y: int) => Smoothed(RowLine(plane, y), weigh, radius, x)
  }

  /** A plane smoothed along its rows, and then along its columns. */
  function Blurred(plane: Plane, weigh: int -> real, radius: nat): Plane {
    (x: int, y: int) => Smoothed(SmoothedAcross(plane, weigh, radius, x), weigh, radius, y)
  }

  /** Where the whole stretch is within the line, its ends do not matter. */
  lemma {:induction false} InsideIsOpen(line: seq<Height>, open: int -> Height, from: int, weigh: int -> real,
                                        radius: nat, at: nat, n: int)
    requires radius <= at && at + radius < |line| && n <= radius + 1
    requires forall i :: at - radius <= i <= at + radius ==> line[i] == open(from + i)
    ensures ClampedSum(line, weigh, radius, at, n) == OpenSum(open, weigh, radius, from + at, n)
    decreases n + radius
  {
    if n > -(radius as int) {
      InsideIsOpen(line, open, from, weigh, radius, at, n - 1);
      assert line[at + n - 1] == open(from + (at + n - 1));
    }
  }

  ghost function ColumnOf(rows: Rows, width: nat, x: nat): (column: seq<Height>)
    requires x < width && forall y :: 0 <= y < |rows| ==> |rows[y]| == width
    ensures |column| == |rows| && forall y :: 0 <= y < |column| ==> column[y] == rows[y][x]
  {
    seq(|rows|, y requires 0 <= y < |rows| => rows[y][x])
  }

  /** The line a pixel of a pass is smoothed along, and where on it the pixel is. */
  ghost function LineOf(rows: Rows, size: nat, y: nat, x: nat, horizontal: bool): (line: seq<Height>)
    requires IsSquare(rows, size) && y < size && x < size
    ensures |line| == size
  {
    if horizontal then rows[y] else ColumnOf(rows, size, x)
  }

  /** One pixel of a pass: the stretch around it, weighed. */
  ghost function PassAt(rows: Rows, size: nat, y: nat, x: nat, horizontal: bool, weigh: int -> real,
                        radius: nat): Height
    requires IsSquare(rows, size) && y < size && x < size
  {
    ClampedSum(LineOf(rows, size, y, x, horizontal), weigh, radius, if horizontal then x else y, radius + 1).Level()
  }

  method Weigh(input: array2<Height>, y: nat, x: nat, horizontal: bool, weigh: int -> real, radius: nat,
               ghost rows: Rows)
    returns (h: Height)
    requires input.Length0 == input.Length1 && y < input.Length0 && x < input.Length1 && Holds(input, rows)
    ensures h == PassAt(rows, input.Length0, y, x, horizontal, weigh, radius)
  {
    var size, sum := input.Length0, NOTHING;
    ghost var line := LineOf(rows, size, y, x, horizontal);
    for k: int := -(radius as int) to radius + 1
      invariant sum == ClampedSum(line, weigh, radius, if horizontal then x else y, k)
    {
      var px := if horizontal then Clamped(x + k, size) else x;
      var py := if horizontal then y else Clamped(y + k, size);
      sum := sum.With(input[py, px], weigh(k));
    }
    h := sum.Level();
  }

  /** The first rows of a pass are done. */
  ghost predicate PassedRows(out: array2<Height>, rows: Rows, horizontal: bool, weigh: int -> real, radius: nat, n: int)
    requires out.Length0 == out.Length1 && IsSquare(rows, out.Length0)
    reads out
  {
    forall r, c :: 0 <= r < n && r < out.Length0 && 0 <= c < out.Length1 ==>
      out[r, c] == PassAt(rows, out.Length0, r, c, horizontal, weigh, radius)
  }

  /** One pass over a square, along its rows or its columns. */
  method Pass(input: array2<Height>, horizontal: bool, weigh: int -> real, radius: nat, ghost rows: Rows)
    returns (out: array2<Height>)
    requires input.Length0 == input.Length1 && Holds(input, rows)
    ensures fresh(out) && out.Length0 == out.Length1 == input.Length0
    ensures PassedRows(out, rows, horizontal, weigh, radius, out.Length0)
  {
    var size := input.Length0;
    out := new Height[size, size]((_, _) => None);
    hide PassAt, LineOf;
    for y := 0 to size
      invariant PassedRows(out, rows, horizontal, weigh, radius, y)
    {
      for x := 0 to size
        invariant PassedRows(out, rows, horizontal, weigh, radius, y)
        invariant forall c :: 0 <= c < x ==> out[y, c] == PassAt(rows, size, y, c, horizontal, weigh, radius)
      {
        var h := Weigh(input, y, x, horizontal, weigh, radius, rows);
        out[y, x] := h;
      }
    }
  }

  /** Whether a position is at least so far from every side. */
  predicate IsWithin(r: int, c: int, side: nat, radius: nat) {
    radius <= r && r + radius < side && radius <= c && c + radius < side
  }

  /** Along its rows first: off the sides, that is the plane smoothed along its rows. */
  lemma AcrossIs(rows: Rows, size: nat, plane: Plane, left: int, top: int, weigh: int -> real, radius: nat, r: nat,
                 c: nat)
    requires IsSquare(rows, size) && r < size && radius <= c && c + radius < size
    requires forall i :: 0 <= i < size ==> rows[r][i] == plane(left + i, top + r)
    ensures PassAt(rows, size, r, c, true, weigh, radius) == Smoothed(RowLine(plane, top + r), weigh, radius, left + c)
  {
    hide ClampedSum, OpenSum;
    InsideIsOpen(rows[r], RowLine(plane, top + r), left, weigh, radius, c, radius + 1);
  }

  /** Then along its columns: off the sides, that is the plane smoothed both ways. */
  lemma DownIs(across: Rows, size: nat, plane: Plane, left: int, top: int, weigh: int -> real, radius: nat, r: nat,
               c: nat)
    requires IsSquare(across, size) && c < size && radius <= r && r + radius < size
    requires forall j :: 0 <= j < size ==> across[j][c] == Smoothed(RowLine(plane, top + j), weigh, radius, left + c)
    ensures PassAt(across, size, r, c, false, weigh, radius) == Blurred(plane, weigh, radius)(left + c, top + r)
  {
    hide ClampedSum, OpenSum, Smoothed;
    var down := SmoothedAcross(plane, weigh, radius, left + c);
    assert Blurred(plane, weigh, radius)(left + c, top + r) == Smoothed(down, weigh, radius, top + r);
    InsideIsOpen(ColumnOf(across, size, c), down, top, weigh, radius, r, radius + 1);
    SmoothedIs(down, weigh, radius, top + r);
  }

  lemma SmoothedIs(line: int -> Height, weigh: int -> real, radius: nat, at: int)
    ensures Smoothed(line, weigh, radius, at) == OpenSum(line, weigh, radius, at, radius + 1).Level()
  {
  }

  /** Smooths a window of a plane: well within it, that is a window of the plane smoothed. */
  method BlurHeights(heights: array2<Height>, weigh: int -> real, radius: nat, ghost plane: Plane, ghost left: int,
                     ghost top: int)
    returns (out: array2<Height>)
    requires heights.Length0 == heights.Length1 && Shows(heights, plane, left, top)
    ensures fresh(out) && out.Length0 == out.Length1 == heights.Length0
    ensures forall r, c :: IsWithin(r, c, heights.Length0, radius) ==>
            out[r, c] == Blurred(plane, weigh, radius)(left + c, top + r)
  {
    var side := heights.Length0;
    ghost var rows := RowsOf(heights);
    var across := Pass(heights, true, weigh, radius, rows);
    ghost var smoothed := RowsOf(across);
    hide PassAt, Smoothed, Blurred;
    forall r, c | 0 <= r < side && radius <= c && c + radius < side
      ensures smoothed[r][c] == Smoothed(RowLine(plane, top + r), weigh, radius, left + c)
    {
      AcrossIs(rows, side, plane, left, top, weigh, radius, r, c);
    }
    out := Pass(across, false, weigh, radius, smoothed);
    forall r, c | IsWithin(r, c, side, radius)
      ensures out[r, c] == Blurred(plane, weigh, radius)(left + c, top + r)
    {
      DownIs(smoothed, side, plane, left, top, weigh, radius, r, c);
    }
  }

  /** The tile out of its border. */
  method CropMargin(padded: array2<Height>, size: nat, margin: nat) returns (out: array2<Height>)
    requires padded.Length0 == padded.Length1 == size + margin * 2
    ensures out.Length0 == out.Length1 == size
    ensures forall r, c :: 0 <= r < size && 0 <= c < size ==> out[r, c] == padded[r + margin, c + margin]
  {
    if margin <= 0 {
      return padded;
    }
    out := new Height[size, size]((_, _) => None);
    for y := 0 to size
      invariant forall r, c :: 0 <= r < y && 0 <= c < size ==> out[r, c] == padded[r + margin, c + margin]
    {
      forall x | 0 <= x < size {
        out[y, x] := padded[y + margin, x + margin];
      }
    }
  }

  /** How far the blur of a spread reaches. */
  function BlurRadius(sigma: real): (r: nat)
    ensures sigma > 0.0 ==> 3.0 * sigma <= r as real < 3.0 * sigma + 1.0
    ensures sigma <= 0.0 ==> r == 0
  {
    if sigma > 0.0 then -((-(sigma * 3.0)).Floor) else 0
  }

  /** The border to take for something that reaches so far: no more than a quarter of the tile. */
  function MarginFor(radius: nat, size: nat): nat {
    if radius < size / 4 then radius else size / 4
  }

  /** Which is as much as it reaches exactly where that is no more than a quarter of the tile. */
  lemma MarginIs(radius: nat, size: nat)
    ensures MarginFor(radius, size) == radius <==> radius <= size / 4
  {
  }

  /**
   A tile upscaled from a parent and smoothed. Where the border is as wide as the
   blur reaches, it is a window of the one plane that the whole parent upscaled
   and smoothed is: what a pixel holds depends on where it is, and not on the tile
   it is asked for in.
   */
  method UpscaleAndBlur(heights: array2<Height>, span: nat, x: nat, y: nat, kernel: Kernel, sigma: real,
                        weigh: int -> real, ghost rows: Rows)
    returns (out: array2<Height>)
    requires 0 < heights.Length0 == heights.Length1 && 0 < span && Holds(heights, rows)
    ensures out.Length0 == out.Length1 == heights.Length0
    ensures IsSquare(rows, heights.Length0)
    ensures BlurRadius(sigma) <= heights.Length0 / 4 ==>
              Shows(out, Ground(rows, heights.Length0, kernel, span, sigma, weigh),
                    Corner(x, span, heights.Length0), Corner(y, span, heights.Length0))
  {
    hide *;
    HoldsSquare(heights, rows);
    var size, radius := heights.Length0, BlurRadius(sigma);
    var margin := MarginFor(radius, size);
    ghost var plane := Upscaled(rows, size, kernel, span);
    ghost var left, top := Corner(x, span, size) - margin, Corner(y, span, size) - margin;
    GroundIs(rows, size, kernel, span, sigma, weigh);
    var padded := ResampleFromParent(heights, span, x, y, kernel, margin, rows);
    if sigma > 0.0 {
      padded := BlurHeights(padded, weigh, radius, plane, left, top);
    }
    out := CropMargin(padded, size, margin);
    if radius <= size / 4 {
      MarginIs(radius, size);
      if sigma > 0.0 {
        CroppedShows(padded, out, plane, weigh, radius, left, top, size, margin);
      } else {
        CroppedIs(padded, out, plane, left, top, size, margin);
      }
    }
  }

  lemma CroppedIs(padded: array2<Height>, out: array2<Height>, plane: Plane, left: int, top: int, size: nat,
                  margin: nat)
    requires padded.Length0 == padded.Length1 == size + margin * 2 && out.Length0 == out.Length1 == size
    requires Shows(padded, plane, left, top)
    requires forall r, c :: 0 <= r < size && 0 <= c < size ==> out[r, c] == padded[r + margin, c + margin]
    ensures Shows(out, plane, left + margin, top + margin)
  {
    forall r, c | 0 <= r < size && 0 <= c < size
      ensures out[r, c] == plane(left + margin + c, top + margin + r)
    {
      assert padded[r + margin, c + margin] == plane(left + (c + margin), top + (r + margin));
    }
  }

  lemma CroppedShows(padded: array2<Height>, out: array2<Height>, plane: Plane, weigh: int -> real, radius: nat,
                     left: int, top: int,
                     size: nat, margin: nat)
    requires padded.Length0 == padded.Length1 == size + margin * 2 && out.Length0 == out.Length1 == size &&
             margin == radius
    requires forall r, c :: IsWithin(r, c, padded.Length0, radius) ==>
             padded[r, c] == Blurred(plane, weigh, radius)(left + c, top + r)
    requires forall r, c :: 0 <= r < size && 0 <= c < size ==> out[r, c] == padded[r + margin, c + margin]
    ensures Shows(out, Blurred(plane, weigh, radius), left + margin, top + margin)
  {
    hide Blurred;
    forall r, c | 0 <= r < size && 0 <= c < size
      ensures out[r, c] == Blurred(plane, weigh, radius)(left + margin + c, top + margin + r)
    {
      assert IsWithin(r + margin, c + margin, size + margin * 2, radius);
      assert padded[r + margin, c + margin] == Blurred(plane, weigh, radius)(left + (c + margin), top + (r + margin));
    }
  }

  lemma GroundIs(rows: Rows, size: nat, kernel: Kernel, span: nat, sigma: real, weigh: int -> real)
    requires 0 < size && 0 < span && IsSquare(rows, size)
    ensures var plane := Upscaled(rows, size, kernel, span);
            Ground(rows, size, kernel, span, sigma, weigh) == if sigma > 0.0
              then Blurred(plane, weigh, BlurRadius(sigma)) else plane
  {
    hide Upscaled, Blurred;
  }

  /** The one plane all of a parent's tiles are windows of. */
  ghost function Ground(rows: Rows, size: nat, kernel: Kernel, span: nat, sigma: real, weigh: int -> real): Plane
    requires 0 < size && 0 < span && IsSquare(rows, size)
  {
    if sigma > 0.0 then Blurred(Upscaled(rows, size, kernel, span), weigh, BlurRadius(sigma))
      else Upscaled(rows, size, kernel, span)
  }

  // ---- What the plane is

  ghost predicate Positive(weigh: int -> real, radius: nat) {
    forall k :: -(radius as int) <= k <= radius ==> weigh(k) > 0.0
  }

  /** Nowhere along a line, from one position to before another, is there data. */
  ghost predicate NoData(line: int -> Height, from: int, to: int) {
    forall at :: from <= at < to ==> line(at).None?
  }

  lemma {:induction false} WeightIsOfData(line: int -> Height, weigh: int -> real, radius: nat, at: int, n: int)
    requires Positive(weigh, radius) && -(radius as int) <= n <= radius + 1
    ensures OpenSum(line, weigh, radius, at, n).weight >= 0.0
    ensures OpenSum(line, weigh, radius, at, n).weight == 0.0 <==> NoData(line, at - radius, at + n)
    decreases n + radius
  {
    if n > -(radius as int) {
      WeightIsOfData(line, weigh, radius, at, n - 1);
      assert weigh(n - 1) > 0.0;
      assert NoData(line, at - radius, at + n) <==> NoData(line, at - radius, at + n - 1) && line(at + n - 1).None?;
    }
  }

  lemma SmoothedHole(line: int -> Height, weigh: int -> real, radius: nat, at: int)
    requires Positive(weigh, radius)
    ensures Smoothed(line, weigh, radius, at).None? <==> NoData(line, at - radius, at + radius + 1)
  {
    WeightIsOfData(line, weigh, radius, at, radius + 1);
  }

  /** A blur fills a hole only from data within its reach and never spreads one: empty is where all around is empty. */
  lemma HolesStay(plane: Plane, weigh: int -> real, radius: nat, x: int, y: int)
    requires Positive(weigh, radius)
    ensures Blurred(plane, weigh, radius)(x, y).None? <==>
            forall row :: y - radius <= row < y + radius + 1 ==> NoData(RowLine(plane, row), x - radius, x + radius + 1)
  {
    var across := SmoothedAcross(plane, weigh, radius, x);
    assert Blurred(plane, weigh, radius)(x, y) == Smoothed(across, weigh, radius, y);
    SmoothedHole(across, weigh, radius, y);
    forall row
      ensures across(row).None? <==> NoData(RowLine(plane, row), x - radius, x + radius + 1)
    {
      SmoothedHole(RowLine(plane, row), weigh, radius, x);
      assert across(row) == Smoothed(RowLine(plane, row), weigh, radius, x);
    }
    hide Smoothed, Blurred, SmoothedAcross, RowLine;
  }

  // ---- Ground that is already right

  /** Takes the sample a place lies in the pixel of. */
  const NEAREST := Kernel(t => if -0.5 <= t <= 0.5 then 1.0 else 0.0, 1)

  /** A position of the upscaled plane lies in one pixel of the parent, and well within half a pixel of its middle. */
  lemma LiesInPixel(at: int, span: nat)
    requires 0 < span
    ensures -0.5 < InParent(at, span) - (at / span) as real < 0.5
  {
    var n, k := span as real, at / span;
    var p := InParent(at, span);
    assert at == k * span + at % span;
    ScaledPlace(at, span);
    assert (p - k as real) * n == (at % span) as real + 0.5 - n / 2.0;
    LessThan(-0.5, p - k as real, n);
    LessThan(p - k as real, 0.5, n);
  }

  lemma LessThan(a: real, b: real, n: real)
    requires n > 0.0 && a * n < b * n
    ensures a < b
  {
  }

  lemma ScaledPlace(at: int, span: nat)
    requires 0 < span
    ensures var k := at / span;
            (InParent(at, span) - k as real) * span as real == (at - k * span) as real + 0.5 - span as real / 2.0
  {
    var n, k := span as real, at / span;
    var q := (at as real + 0.5) / n;
    assert q * n == at as real + 0.5;
    assert (q - 0.5 - k as real) * n == q * n - 0.5 * n - k as real * n;
    assert k as real * n == (k * span) as real;
  }

  /** Of the two samples around such a position, the one in its own pixel counts, and only that. */
  lemma NearestIsOwn(at: int, span: nat, d: int)
    requires 0 < span && 0 <= d <= 1
    ensures var place := InParent(at, span);
            && WeightOf(NEAREST, place, d) == (if Near(place, d) == at / span then 1.0 else 0.0)
            && Near(place, 1) == Near(place, 0) + 1
            && (Near(place, 0) == at / span || Near(place, 1) == at / span)
  {
    LiesInPixel(at, span);
    hide InParent;
  }

  lemma NearestAcross(row: seq<Height>, at: int, span: nat, before: Sum)
    requires row != [] && 0 < span
    ensures AcrossSum(row, NEAREST, InParent(at, span), 1.0, 2, before) ==
            before.With(row[Clamped(at / span, |row|)], 1.0)
  {
    var sx := InParent(at, span);
    NearestIsOwn(at, span, 0);
    NearestIsOwn(at, span, 1);
    NothingAcross(row, NEAREST, sx, 1.0, before);
    AcrossOneMore(row, NEAREST, sx, 1.0, 0, before);
    AcrossOneMore(row, NEAREST, sx, 1.0, 1, before);
    hide AcrossSum, WeightOf, Near, InParent, Clamped;
  }

  /** Upscaled to the nearest, each pixel holds what the pixel of the parent it lies in does. */
  lemma NearestIsTheParent(rows: Rows, size: nat, span: nat, x: int, y: int)
    requires 0 < size && 0 < span && IsSquare(rows, size)
    ensures Upscaled(rows, size, NEAREST, span)(x, y) == rows[Clamped(y / span, size)][Clamped(x / span, size)]
  {
    var sx, sy := InParent(x, span), InParent(y, span);
    UpscaledAt(rows, size, NEAREST, span, x, y);
    NothingSummed(rows, size, NEAREST, sx, sy);
    NearestIsOwn(y, span, 0);
    NearestIsOwn(y, span, 1);
    AllOneMore(rows, size, NEAREST, sx, sy, 0);
    AllOneMore(rows, size, NEAREST, sx, sy, 1);
    NearestAcross(rows[Clamped(y / span, size)], x, span, NOTHING);
    hide AllSum, AcrossSum, WeightOf, Near, InParent, Upscaled, Sample;
  }

  /** Where there is data, it is of one height. */
  predicate IsFlat(h: Height, metres: real) {
    h.Some? ==> h.value == metres
  }

  ghost predicate FlatSum(sum: Sum, metres: real) {
    sum.total == metres * sum.weight
  }

  lemma FlatWith(sum: Sum, h: Height, w: real, metres: real)
    requires FlatSum(sum, metres) && IsFlat(h, metres)
    ensures FlatSum(sum.With(h, w), metres)
  {
    assert h.Some? ==> metres * (sum.weight + w) == metres * sum.weight + metres * w;
  }

  lemma FlatMean(sum: Sum, metres: real)
    requires FlatSum(sum, metres)
    ensures IsFlat(sum.Mean(), metres) && IsFlat(sum.Level(), metres)
  {
    if sum.weight != 0.0 {
      Quotient(metres, sum.total, sum.weight);
    }
  }

  lemma {:induction false} FlatAcross(row: seq<Height>, kernel: Kernel, sx: real, wy: real, n: int, before: Sum,
                                      metres: real)
    requires row != [] && FlatSum(before, metres) && forall x :: 0 <= x < |row| ==> IsFlat(row[x], metres)
    ensures FlatSum(AcrossSum(row, kernel, sx, wy, n, before), metres)
    decreases n + kernel.reach
  {
    if n > 1 - kernel.reach {
      FlatAcross(row, kernel, sx, wy, n - 1, before, metres);
      FlatWith(AcrossSum(row, kernel, sx, wy, n - 1, before), row[Clamped(Near(sx, n - 1), |row|)],
               wy * WeightOf(kernel, sx, n - 1), metres);
    }
    hide FlatSum, IsFlat, WeightOf, Near, Clamped;
  }

  lemma {:induction false} FlatAll(rows: Rows, size: nat, kernel: Kernel, sx: real, sy: real, n: int, metres: real)
    requires 0 < size && IsSquare(rows, size)
    requires forall y, x :: 0 <= y < size && 0 <= x < size ==> IsFlat(rows[y][x], metres)
    ensures FlatSum(AllSum(rows, size, kernel, sx, sy, n), metres)
    decreases n + kernel.reach
  {
    if n > 1 - kernel.reach {
      FlatAll(rows, size, kernel, sx, sy, n - 1, metres);
      FlatAcross(rows[Clamped(Near(sy, n - 1), size)], kernel, sx, WeightOf(kernel, sy, n - 1), kernel.reach + 1,
                 AllSum(rows, size, kernel, sx, sy, n - 1), metres);
    }
    hide AcrossSum, WeightOf, Near, Clamped;
  }

  lemma {:induction false} FlatOpen(line: int -> Height, weigh: int -> real, radius: nat, at: int, n: int, metres: real)
    requires forall i :: IsFlat(line(i), metres)
    ensures FlatSum(OpenSum(line, weigh, radius, at, n), metres)
    decreases n + radius
  {
    if n > -(radius as int) {
      FlatOpen(line, weigh, radius, at, n - 1, metres);
      FlatWith(OpenSum(line, weigh, radius, at, n - 1), line(at + n - 1), weigh(n - 1), metres);
    }
  }

  lemma FlatSmoothed(line: int -> Height, weigh: int -> real, radius: nat, at: int, metres: real)
    requires forall i :: IsFlat(line(i), metres)
    ensures IsFlat(Smoothed(line, weigh, radius, at), metres)
  {
    FlatOpen(line, weigh, radius, at, radius + 1, metres);
    FlatMean(OpenSum(line, weigh, radius, at, radius + 1), metres);
  }

  lemma FlatUpscaled(rows: Rows, size: nat, kernel: Kernel, span: nat, x: int, y: int, metres: real)
    requires 0 < size && 0 < span && IsSquare(rows, size)
    requires forall r, c :: 0 <= r < size && 0 <= c < size ==> IsFlat(rows[r][c], metres)
    ensures IsFlat(Upscaled(rows, size, kernel, span)(x, y), metres)
  {
    var sx, sy := InParent(x, span), InParent(y, span);
    FlatAll(rows, size, kernel, sx, sy, kernel.reach + 1, metres);
    FlatMean(AllSum(rows, size, kernel, sx, sy, kernel.reach + 1), metres);
    UpscaledAt(rows, size, kernel, span, x, y);
    hide IsFlat, FlatSum, AllSum;
  }

  lemma FlatBlurred(plane: Plane, weigh: int -> real, radius: nat, x: int, y: int, metres: real)
    requires forall i, j :: IsFlat(plane(i, j), metres)
    ensures IsFlat(Blurred(plane, weigh, radius)(x, y), metres)
  {
    var across := SmoothedAcross(plane, weigh, radius, x);
    forall j
      ensures IsFlat(across(j), metres)
    {
      FlatSmoothed(RowLine(plane, j), weigh, radius, x, metres);
      assert across(j) == Smoothed(RowLine(plane, j), weigh, radius, x);
    }
    FlatSmoothed(across, weigh, radius, y, metres);
    assert Blurred(plane, weigh, radius)(x, y) == Smoothed(across, weigh, radius, y);
  }

  /** Flat ground stays as high as it is, whatever the kernel and however much it is smoothed. */
  lemma FlatStaysFlat(rows: Rows, size: nat, kernel: Kernel, span: nat, sigma: real, weigh: int -> real, x: int, y: int,
                      metres: real)
    requires 0 < size && 0 < span && IsSquare(rows, size)
    requires forall r, c :: 0 <= r < size && 0 <= c < size ==> IsFlat(rows[r][c], metres)
    ensures IsFlat(Ground(rows, size, kernel, span, sigma, weigh)(x, y), metres)
  {
    var plane := Upscaled(rows, size, kernel, span);
    GroundIs(rows, size, kernel, span, sigma, weigh);
    forall i, j
      ensures IsFlat(plane(i, j), metres)
    {
      FlatUpscaled(rows, size, kernel, span, i, j, metres);
    }
    if sigma > 0.0 {
      FlatBlurred(plane, weigh, BlurRadius(sigma), x, y, metres);
    }
    hide *;
  }
}
