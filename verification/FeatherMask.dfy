/**
 Feathering: a coverage mask becomes a weight that ramps in from the edge of
 what is covered, and the border a mask was built with is cropped off again.
 */
module FeatherMask {
  import opened DistanceTransform

  /** A square coverage mask as a value, row by row: true where the shape covers. */
  type Cover = seq<seq<bool>>

  ghost function Rows(mask: array2<bool>): (cover: Cover)
    reads mask
    ensures |cover| == mask.Length0 && forall r :: 0 <= r < |cover| ==> |cover[r]| == mask.Length1
  {
    seq(mask.Length0, r requires 0 <= r < mask.Length0 reads mask =>
      seq(mask.Length1, c requires 0 <= c < mask.Length1 reads mask => mask[r, c]))
  }

  ghost predicate Pixel(cover: Cover, r: int, c: int) {
    0 <= r < |cover| && 0 <= c < |cover[r]|
  }

  ghost predicate Hole(cover: Cover, r: int, c: int) {
    Pixel(cover, r, c) && !cover[r][c]
  }

  /** The squared distance between two pixels. */
  function Apart(r: int, c: int, r': int, c': int): (d: real)
    ensures 0.0 <= d
  {
    Square((r - r') as real) + Square((c - c') as real)
  }

  /** d is the squared distance from a pixel to the nearest hole, or FAR where none is nearer than that. */
  ghost predicate IsDistance(cover: Cover, r: int, c: int, d: real) {
    && d <= FAR
    && (forall r', c' :: Hole(cover, r', c') ==> d <= Apart(r, c, r', c'))
    && (d == FAR || exists r', c' :: Hole(cover, r', c') && d == Apart(r, c, r', c'))
  }

  ghost predicate IsRoot(root: real -> real) {
    forall x: real :: 0.0 <= x ==> 0.0 <= root(x) && root(x) * root(x) == x
  }

  function Cap(x: real): real {
    if x < 1.0 then x else 1.0
  }

  /** The costs one row hands the envelope. */
  ghost function RowCosts(row: seq<bool>): seq<real> {
    seq(|row|, i requires 0 <= i < |row| => if row[i] then FAR else 0.0)
  }

  ghost function Column(squared: seq<seq<real>>, c: nat): seq<real>
    requires forall r :: 0 <= r < |squared| ==> c < |squared[r]|
  {
    seq(|squared|, r requires 0 <= r < |squared| => squared[r][c])
  }

  /** The envelope over the rows and then over a column is the distance in the plane. */
  lemma TwoPassesMeasure(cover: Cover, squared: seq<seq<real>>, r: nat, c: nat, d: real)
    requires Pixel(cover, r, c) && |squared| == |cover|
    requires forall r' :: 0 <= r' < |cover| ==> |cover[r']| == |squared[r']| == |cover[r]|
    requires forall r' :: 0 <= r' < |cover| ==> IsLowest(RowCosts(cover[r']), c as real, squared[r'][c])
    requires IsLowest(Column(squared, c), r as real, d)
    ensures IsDistance(cover, r, c, d)
  {
    var column := Column(squared, c);
    forall r', c' | Pixel(cover, r', c')
      ensures d <= Apart(r, c, r', c') + RowCosts(cover[r'])[c']
    {
      assert d <= Parabola(column, r', r as real);
      assert squared[r'][c] <= Parabola(RowCosts(cover[r']), c', c as real);
    }
    assert Apart(r, c, r, c) == 0.0;
    assert d <= Apart(r, c, r, c) + RowCosts(cover[r])[c];
    var r': nat :| r' < |column| && d == Parabola(column, r', r as real);
    var c': nat :| c' < |cover[r']| && squared[r'][c] == Parabola(RowCosts(cover[r']), c', c as real);
    assert d == Apart(r, c, r', c') + RowCosts(cover[r'])[c'];
    if !cover[r'][c'] {
      assert Hole(cover, r', c');
    }
  }

  /** One row of the first pass. */
  method MeasureRow(mask: array2<bool>, row: nat, side: nat, f: array<real>) returns (d: array<real>)
    requires row < mask.Length0 && side == mask.Length1 == f.Length
    modifies f
    ensures fresh(d) && d.Length == side
    ensures forall c :: 0 <= c < side ==> IsLowest(RowCosts(Rows(mask)[row]), c as real, d[c])
  {
    for column := 0 to side
      invariant forall i :: 0 <= i < column ==> f[i] == if mask[row, i] then FAR else 0.0
    {
      f[column] := if mask[row, column] then FAR else 0.0;
    }
    assert f[..side] == RowCosts(Rows(mask)[row]);
    d := LowerEnvelope(f, side);
  }

  /** One column of the second pass. */
  method MeasureColumn(squared: array2<real>, column: nat, side: nat, f: array<real>, ghost values: seq<real>)
    returns (d: array<real>)
    requires column < squared.Length1 && side == squared.Length0 == f.Length == |values|
    requires forall r :: 0 <= r < side ==> values[r] == squared[r, column]
    modifies f
    ensures fresh(d) && d.Length == side
    ensures forall r :: 0 <= r < side ==> IsLowest(values, r as real, d[r])
  {
    for row := 0 to side
      invariant forall i :: 0 <= i < row ==> f[i] == squared[i, column]
    {
      f[row] := squared[row, column];
    }
    assert f[..side] == values;
    d := LowerEnvelope(f, side);
  }

  /** What a feathered mask holds at a pixel. */
  ghost predicate IsWeight(cover: Cover, r: int, c: int, feather: real, root: real -> real, w: real)
    requires Pixel(cover, r, c)
  {
    if feather > 0.0 then exists d: real :: IsDistance(cover, r, c, d) && w == Cap(root(d) / feather)
    else w == if cover[r][c] then 1.0 else 0.0
  }

  /** Without a feather every pixel is all or nothing. */
  method HardEdge(mask: array2<bool>, side: nat, weights: array2<real>)
    requires mask.Length0 == mask.Length1 == side == weights.Length0 == weights.Length1
    modifies weights
    ensures forall r, c :: 0 <= r < side && 0 <= c < side ==> weights[r, c] == if mask[r, c] then 1.0 else 0.0
  {
    for row := 0 to side
      invariant forall r, c :: 0 <= r < row && 0 <= c < side ==> weights[r, c] == if mask[r, c] then 1.0 else 0.0
    {
      for column := 0 to side
        invariant forall r, c :: 0 <= r < row && 0 <= c < side ==> weights[r, c] == if mask[r, c] then 1.0 else 0.0
        invariant forall c :: 0 <= c < column ==> weights[row, c] == if mask[row, c] then 1.0 else 0.0
      {
        weights[row, column] := if mask[row, column] then 1.0 else 0.0;
      }
    }
  }

  method StoreRow(d: array<real>, row: nat, side: nat, squared: array2<real>)
    requires row < squared.Length0 && squared.Length1 == side == d.Length
    modifies squared
    ensures forall c :: 0 <= c < side ==> squared[row, c] == d[c]
    ensures forall r, c :: 0 <= r < squared.Length0 && 0 <= c < side && r != row ==> squared[r, c] == old(squared[r, c])
  {
    for column := 0 to side
      invariant forall c :: 0 <= c < column ==> squared[row, c] == d[c]
      invariant forall r, c :: 0 <= r < squared.Length0 && 0 <= c < side && r != row ==>
                squared[r, c] == old(squared[r, c])
    {
      squared[row, column] := d[column];
    }
  }

  /** The first pass: along every row, the squared distance to the nearest hole in that row. */
  method MeasureRows(mask: array2<bool>, side: nat, f: array<real>, squared: array2<real>)
    returns (ghost plane: seq<seq<real>>)
    requires mask.Length0 == mask.Length1 == side == squared.Length0 == squared.Length1 == f.Length
    modifies f, squared
    ensures |plane| == side && forall r :: 0 <= r < side ==> |plane[r]| == side
    ensures forall r, c :: 0 <= r < side && 0 <= c < side ==> squared[r, c] == plane[r][c]
    ensures forall r, c :: 0 <= r < side && 0 <= c < side ==> IsLowest(RowCosts(Rows(mask)[r]), c as real, plane[r][c])
  {
    ghost var cover := Rows(mask);
    plane := [];
    for row := 0 to side
      invariant Rows(mask) == cover
      invariant |plane| == row && (forall r :: 0 <= r < row ==> |plane[r]| == side)
      invariant forall r, c :: 0 <= r < row && 0 <= c < side ==> squared[r, c] == plane[r][c]
      invariant forall r, c :: 0 <= r < row && 0 <= c < side ==> IsLowest(RowCosts(cover[r]), c as real, plane[r][c])
    {
      var d := MeasureRow(mask, row, side, f);
      StoreRow(d, row, side, squared);
      plane := plane + [d[..]];
    }
  }

  /** One column of weights, out of the distances the second pass measured. */
  method Ramp(d: array<real>, column: nat, side: nat, feather: real, root: real -> real, weights: array2<real>)
    requires d.Length == side == weights.Length0 && column < weights.Length1
    requires feather > 0.0
    modifies weights
    ensures forall r :: 0 <= r < side ==> weights[r, column] == Cap(root(d[r]) / feather)
    ensures forall r, c :: 0 <= r < side && 0 <= c < weights.Length1 && c != column ==>
            weights[r, c] == old(weights[r, c])
  {
    for row := 0 to side
      invariant forall r :: 0 <= r < row ==> weights[r, column] == Cap(root(d[r]) / feather)
      invariant forall r, c :: 0 <= r < side && 0 <= c < weights.Length1 && c != column ==>
                weights[r, c] == old(weights[r, c])
    {
      var distance := root(d[row]);
      weights[row, column] := Cap(distance / feather);
    }
  }

  /** Turns a coverage mask into a weight that ramps in from the edge. */
  method Feather(mask: array2<bool>, side: nat, feather: real, root: real -> real) returns (weights: array2<real>)
    requires mask.Length0 == mask.Length1 == side
    ensures fresh(weights) && weights.Length0 == weights.Length1 == side
    ensures forall r, c :: 0 <= r < side && 0 <= c < side ==> IsWeight(Rows(mask), r, c, feather, root, weights[r, c])
  {
    weights := new real[side, side];
    if !(feather > 0.0) {
      HardEdge(mask, side, weights);
      return;
    }
    ghost var cover := Rows(mask);
    var f := new real[side];
    var squared := new real[side, side];
    ghost var plane := MeasureRows(mask, side, f, squared);

    for column := 0 to side
      invariant Rows(mask) == cover
      invariant forall r, c :: 0 <= r < side && 0 <= c < side ==> squared[r, c] == plane[r][c]
      invariant forall r, c :: 0 <= r < side && 0 <= c < column ==> IsWeight(cover, r, c, feather, root, weights[r, c])
    {
      var d := MeasureColumn(squared, column, side, f, Column(plane, column));
      forall r | 0 <= r < side
        ensures IsWeight(cover, r, column, feather, root, Cap(root(d[r]) / feather))
      {
        TwoPassesMeasure(cover, plane, r, column, d[r]);
      }
      Ramp(d, column, side, feather, root, weights);
    }
  }

  lemma ApartIsZeroAtItself(r: int, c: int, r': int, c': int)
    ensures Apart(r, c, r', c') == 0.0 <==> r == r' && c == c'
  {
    if r != r' {
      assert 0.0 < Square((r - r') as real);
    }
    if c != c' {
      assert 0.0 < Square((c - c') as real);
    }
  }

  lemma SquaresOrder(a: real, b: real)
    requires 0.0 <= a && 0.0 <= b
    ensures a < b <==> Square(a) < Square(b)
    ensures a == b <==> Square(a) == Square(b)
  {
    assert Square(b) - Square(a) == (a + b) * (b - a);
    if 0.0 < a + b {
      SignOfProduct(a + b, b - a);
    }
  }

  lemma QuotientOrder(s: real, f: real)
    requires 0.0 < f
    ensures s / f * f == s
    ensures s / f < 1.0 <==> s < f
    ensures 0.0 <= s / f <==> 0.0 <= s
    ensures s / f <= 0.0 <==> s <= 0.0
  {
    var q := s / f;
    assert q * f == s;
    assert f * (q - 1.0) == s - f;
    SignOfProduct(f, q - 1.0);
    SignOfProduct(f, q);
  }

  /** A capped quotient of roots, said about the squares. */
  lemma CapMeaning(d: real, feather: real, root: real -> real, w: real)
    requires IsRoot(root) && 0.0 <= d && 0.0 < feather && w == Cap(root(d) / feather)
    ensures 0.0 <= w <= 1.0
    ensures w == 0.0 <==> d == 0.0
    ensures w == 1.0 <==> Square(feather) <= d
    ensures w < 1.0 ==> Square(w * feather) == d
  {
    var s := root(d);
    assert Square(s) == d;
    SquaresOrder(s, feather);
    SquaresOrder(s, 0.0);
    QuotientOrder(s, feather);
  }

  /**
   What a feathered weight says about the ground: nothing exactly at the holes,
   everything exactly where no hole is nearer than the feather, and in between
   the true distance to the nearest hole, as a share of the feather. A feather
   of more than a million pixels, which FAR no longer dominates, is excluded only
   from the second of these.
   */
  lemma WeightMeaning(cover: Cover, r: int, c: int, feather: real, root: real -> real, w: real)
    requires Pixel(cover, r, c) && IsRoot(root) && 0.0 < feather
    requires IsWeight(cover, r, c, feather, root, w)
    ensures 0.0 <= w <= 1.0
    ensures w == 0.0 <==> Hole(cover, r, c)
    ensures feather <= 1000000.0 ==>
              (w == 1.0 <==> forall r', c' :: Hole(cover, r', c') ==> Square(feather) <= Apart(r, c, r', c'))
    ensures w < 1.0 ==> IsDistance(cover, r, c, Square(w * feather))
  {
    var d: real :| IsDistance(cover, r, c, d) && w == Cap(root(d) / feather);
    CapMeaning(d, feather, root, w);
    SquaresOrder(feather, 1000000.0);
    if d != FAR {
      var a, b :| Hole(cover, a, b) && d == Apart(r, c, a, b);
      ApartIsZeroAtItself(r, c, a, b);
    }
    ApartIsZeroAtItself(r, c, r, c);
  }

  /**
   A pixel of one mask, and the pixel of another that lies `dr` rows and `dc` columns further on, are
   covered alike.
   */
  ghost predicate Agree(one: Cover, two: Cover, dr: int, dc: int, r: int, c: int) {
    Pixel(one, r, c) && Pixel(two, r + dr, c + dc) && one[r][c] == two[r + dr][c + dc]
  }

  /** Two masks, one shifted against the other, cover alike everywhere up to `reach` pixels around a pixel. */
  ghost predicate SameGround(one: Cover, two: Cover, dr: int, dc: int, r: int, c: int, reach: int) {
    forall a, b :: r - reach <= a <= r + reach && c - reach <= b <= c + reach ==> Agree(one, two, dr, dc, a, b)
  }

  lemma SmallSquare(i: int, reach: nat)
    requires Square(i as real) < Square(reach as real)
    ensures -(reach as int) <= i <= reach
  {
    SquaresOrder(if i < 0 then (-i) as real else i as real, reach as real);
    assert Square((-i) as real) == Square(i as real);
  }

  lemma NearHoleIsShared(one: Cover, two: Cover, dr: int, dc: int, r: int, c: int, reach: nat, d: real, d': real)
    requires SameGround(one, two, dr, dc, r, c, reach)
    requires IsDistance(one, r, c, d) && IsDistance(two, r + dr, c + dc, d')
    requires d < Square(reach as real)
    ensures d' <= d
  {
    if d != FAR {
      var a, b :| Hole(one, a, b) && d == Apart(r, c, a, b);
      SmallSquare(r - a, reach);
      SmallSquare(c - b, reach);
      assert Agree(one, two, dr, dc, a, b);
      assert Hole(two, a + dr, b + dc);
      assert Apart(r + dr, c + dc, a + dr, b + dc) == d;
    }
  }

  lemma SameGroundIsSymmetric(one: Cover, two: Cover, dr: int, dc: int, r: int, c: int, reach: int)
    requires SameGround(one, two, dr, dc, r, c, reach)
    ensures SameGround(two, one, -dr, -dc, r + dr, c + dc, reach)
  {
    var er, ec := -dr, -dc;
    forall a, b | r + dr - reach <= a <= r + dr + reach && c + dc - reach <= b <= c + dc + reach
      ensures Agree(two, one, er, ec, a, b)
    {
      assert Agree(one, two, dr, dc, a - dr, b - dc);
    }
  }

  /**
   Why a mask built with a border feathers without a seam: the weight of a pixel
   depends on nothing further away than the feather, so two tiles whose padded
   masks agree that far around a pixel give it the same weight.
   */
  lemma FeatherIsLocal(one: Cover, two: Cover, dr: int, dc: int, r: int, c: int, reach: nat,
                       feather: real, root: real -> real, w: real, w': real)
    requires IsRoot(root) && feather <= reach as real
    requires SameGround(one, two, dr, dc, r, c, reach) && Pixel(one, r, c) && Pixel(two, r + dr, c + dc)
    requires IsWeight(one, r, c, feather, root, w) && IsWeight(two, r + dr, c + dc, feather, root, w')
    ensures w == w'
  {
    assert Agree(one, two, dr, dc, r, c);
    if feather > 0.0 {
      var d: real :| IsDistance(one, r, c, d) && w == Cap(root(d) / feather);
      var d': real :| IsDistance(two, r + dr, c + dc, d') && w' == Cap(root(d') / feather);
      DistancesAgree(one, two, dr, dc, r, c, reach, d, d');
      SquaresOrder(feather, reach as real);
      if d != d' {
        CapMeaning(d, feather, root, w);
        CapMeaning(d', feather, root, w');
      }
    }
  }

  lemma DistancesAgree(one: Cover, two: Cover, dr: int, dc: int, r: int, c: int, reach: nat, d: real, d': real)
    requires SameGround(one, two, dr, dc, r, c, reach)
    requires IsDistance(one, r, c, d) && IsDistance(two, r + dr, c + dc, d')
    ensures d == d' || (Square(reach as real) <= d && Square(reach as real) <= d')
    ensures 0.0 <= d && 0.0 <= d'
  {
    SameGroundIsSymmetric(one, two, dr, dc, r, c, reach);
    if d < Square(reach as real) {
      NearHoleIsShared(one, two, dr, dc, r, c, reach, d, d');
    }
    if d' < Square(reach as real) {
      NearHoleIsShared(two, one, -dr, -dc, r + dr, c + dc, reach, d', d);
    }
  }

  /** Takes the tile back out of a mask that was built with a border. */
  method CropMask(padded: array2<real>, size: nat, margin: int) returns (out: array2<real>)
    requires margin > 0 ==> padded.Length0 == padded.Length1 == size + margin * 2
    ensures margin <= 0 ==> out == padded
    ensures margin > 0 ==> fresh(out) && out.Length0 == out.Length1 == size
    ensures margin > 0 ==> forall y, x :: 0 <= y < size && 0 <= x < size ==> out[y, x] == padded[y + margin, x + margin]
  {
    if margin <= 0 {
      return padded;
    }
    out := new real[size, size];
    for y := 0 to size
      invariant forall r, c :: 0 <= r < y && 0 <= c < size ==> out[r, c] == padded[r + margin, c + margin]
    {
      forall c | 0 <= c < size {
        out[y, c] := padded[y + margin, c + margin];
      }
    }
  }
}
