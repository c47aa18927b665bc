/**
 PMTiles tile ids: zoom after zoom, and along a Hilbert curve within each, as
 section 4.1 of the PMTiles Version 3 Specification numbers them.
 */
module TileIds {
  import opened Powers

  /** How many tiles a zoom has. */
  function TilesAt(z: nat): (n: nat)
    ensures 0 < n
  {
    if z == 0 then 1 else 4 * TilesAt(z - 1)
  }

  lemma {:induction false} TilesMultiply(m: nat, n: nat)
    ensures TilesAt(m + n) == TilesAt(m) * TilesAt(n)
  {
    if m > 0 {
      TilesMultiply(m - 1, n);
    }
  }

  /** The first tile id at a zoom: after every tile of every shallower one. */
  function FirstIdAt(z: nat): (id: nat)
    ensures z == 0 ==> id == 0
  {
    (TilesAt(z) - 1) / 3
  }

  lemma {:induction false} ZoomsAbut(z: nat)
    ensures TilesAt(z) % 3 == 1
    ensures FirstIdAt(z + 1) == FirstIdAt(z) + TilesAt(z)
  {
    if z > 0 {
      ZoomsAbut(z - 1);
    }
  }

  lemma {:induction false} ZoomsAscend(z: nat, z': nat)
    requires z <= z'
    ensures FirstIdAt(z) <= FirstIdAt(z')
  {
    if z < z' {
      ZoomsAscend(z, z' - 1);
      ZoomsAbut(z' - 1);
    }
  }

  /** The bit of a coordinate that says which half of the square it is in. */
  function High(x: nat, s: nat): (h: nat)
    ensures h < 2
  {
    if x < s then 0 else 1
  }

  /** The bits below it. */
  function Low(x: nat, s: nat): (l: nat)
    requires x < 2 * s
    ensures l < s
  {
    if x < s then x else x - s
  }

  /** Which quarter of the square comes when: north-west, south-west, south-east, north-east. */
  function Quarter(rx: nat, ry: nat): (q: nat)
    ensures q < 4
  {
    if rx == 0 then (if ry == 0 then 0 else 1) else (if ry == 0 then 3 else 2)
  }

  /** How the curve is turned within a quarter of side s. */
  function Turned(s: nat, x: nat, y: nat, rx: nat, ry: nat): (p: (nat, nat))
    requires x < s && y < s
    ensures p.0 < s && p.1 < s
  {
    if ry != 0 then (x, y) else if rx != 0 then (s - 1 - y, s - 1 - x) else (y, x)
  }

  /** How many cells come before a quarter that holds n. */
  function Before(q: nat, n: nat): nat
    requires q < 4
  {
    if q == 0 then 0 else if q == 1 then n else if q == 2 then 2 * n else 3 * n
  }

  /** A cell's place within its quarter, as the curve turns there. */
  function InQuarter(k: nat, x: nat, y: nat): (p: (nat, nat))
    requires 0 < k && x < Pow2(k) && y < Pow2(k)
    ensures p.0 < Pow2(k - 1) && p.1 < Pow2(k - 1)
  {
    var s := Pow2(k - 1);
    Turned(s, Low(x, s), Low(y, s), High(x, s), High(y, s))
  }

  /** A cell's position along the Hilbert curve over a square of side 2^k. */
  function Hilbert(k: nat, x: nat, y: nat): (d: nat)
    requires x < Pow2(k) && y < Pow2(k)
    ensures d < TilesAt(k)
  {
    if k == 0 then 0
    else
      var s, p := Pow2(k - 1), InQuarter(k, x, y);
      Before(Quarter(High(x, s), High(y, s)), TilesAt(k - 1)) + Hilbert(k - 1, p.0, p.1)
  }

  lemma QuartersAreApart(rx: nat, ry: nat, rx': nat, ry': nat)
    requires rx < 2 && ry < 2 && rx' < 2 && ry' < 2
    ensures Quarter(rx, ry) == Quarter(rx', ry') ==> rx == rx' && ry == ry'
  {
  }

  lemma QuartersDoNotOverlap(q: nat, d: nat, q': nat, d': nat, n: nat)
    requires q < 4 && q' < 4 && d < n && d' < n && Before(q, n) + d == Before(q', n) + d'
    ensures q == q' && d == d'
  {
  }

  lemma SamePositionSameQuarter(k: nat, x: nat, y: nat, x': nat, y': nat)
    requires 0 < k && x < Pow2(k) && y < Pow2(k) && x' < Pow2(k) && y' < Pow2(k)
    requires Hilbert(k, x, y) == Hilbert(k, x', y')
    ensures High(x, Pow2(k - 1)) == High(x', Pow2(k - 1)) && High(y, Pow2(k - 1)) == High(y', Pow2(k - 1))
    ensures Hilbert(k - 1, InQuarter(k, x, y).0, InQuarter(k, x, y).1) ==
              Hilbert(k - 1, InQuarter(k, x', y').0, InQuarter(k, x', y').1)
  {
    hide InQuarter, High, Quarter, Before, TilesAt, Pow2;
    var s, p, p' := Pow2(k - 1), InQuarter(k, x, y), InQuarter(k, x', y');
    QuartersAreApart(High(x, s), High(y, s), High(x', s), High(y', s));
    QuartersDoNotOverlap(Quarter(High(x, s), High(y, s)), Hilbert(k - 1, p.0, p.1),
                         Quarter(High(x', s), High(y', s)), Hilbert(k - 1, p'.0, p'.1), TilesAt(k - 1));
  }

  lemma SameQuarterSameCell(k: nat, x: nat, y: nat, x': nat, y': nat)
    requires 0 < k && x < Pow2(k) && y < Pow2(k) && x' < Pow2(k) && y' < Pow2(k)
    requires High(x, Pow2(k - 1)) == High(x', Pow2(k - 1)) && High(y, Pow2(k - 1)) == High(y', Pow2(k - 1))
    requires InQuarter(k, x, y) == InQuarter(k, x', y')
    ensures x == x' && y == y'
  {
  }

  /** Two cells are never at one position. */
  lemma {:induction false} HilbertIsInjective(k: nat, x: nat, y: nat, x': nat, y': nat)
    requires x < Pow2(k) && y < Pow2(k) && x' < Pow2(k) && y' < Pow2(k)
    requires Hilbert(k, x, y) == Hilbert(k, x', y')
    ensures x == x' && y == y'
  {
    if k > 0 {
      hide *;
      SamePositionSameQuarter(k, x, y, x', y');
      var p, p' := InQuarter(k, x, y), InQuarter(k, x', y');
      HilbertIsInjective(k - 1, p.0, p.1, p'.0, p'.1);
      SameQuarterSameCell(k, x, y, x', y');
    }
  }

  /** Position `small` lies in the run of p positions that is number `large`. */
  ghost predicate Nested(large: nat, small: nat, p: nat) {
    Times(large, p) <= small < Times(large, p) + p
  }

  lemma HalvesMultiply(half: nat, p: nat, large: nat, small: nat)
    requires large * p <= small < large * p + p && large < 2 * half
    ensures small < 2 * (half * p)
    ensures if large < half then small < half * p
            else half * p <= small && (large - half) * p <= small - half * p < (large - half) * p + p
  {
    assert (large + 1) * p == large * p + p;
    if large < half {
      ProductsAscend(large + 1, half, p);
    } else {
      ProductsAscend(large - half + 1, half, p);
      assert (large - half) * p == large * p - half * p;
      assert (large - half + 1) * p == (large - half) * p + p;
    }
  }

  /** Which half of the square a cell is in is which half the larger cell around it is in. */
  lemma HalvesNest(half: nat, p: nat, large: nat, small: nat)
    requires Nested(large, small, p) && large < 2 * half
    ensures small < 2 * (half * p)
    ensures High(small, half * p) == High(large, half)
    ensures Nested(Low(large, half), Low(small, half * p), p)
  {
    TimesIsProduct(large, p);
    TimesIsProduct(Low(large, half), p);
    hide Times;
    HalvesMultiply(half, p, large, small);
  }

  lemma MirrorNests(half: nat, p: nat, large: nat, small: nat)
    requires Nested(large, small, p) && large < half
    ensures small < half * p
    ensures Nested(half - 1 - large, half * p - 1 - small, p)
  {
    TimesIsProduct(large, p);
    TimesIsProduct(half - 1 - large, p);
    ProductsAscend(large + 1, half, p);
    assert (large + 1) * p == large * p + p;
    assert (half - 1 - large) * p == half * p - p - large * p;
  }

  /** Turning a quarter turns the larger cells and the cells within them alike. */
  lemma TurningNests(half: nat, p: nat, x: nat, y: nat, x': nat, y': nat, rx: nat, ry: nat)
    requires x < half && y < half && Nested(x, x', p) && Nested(y, y', p)
    ensures x' < half * p && y' < half * p
    ensures var large, small := Turned(half, x, y, rx, ry), Turned(half * p, x', y', rx, ry);
            Nested(large.0, small.0, p) && Nested(large.1, small.1, p)
  {
    MirrorNests(half, p, x, x');
    MirrorNests(half, p, y, y');
  }

  lemma QuartersNest(q: nat, t: nat, p: nat, large: nat, small: nat)
    requires q < 4 && Nested(large, small, p)
    ensures Nested(Before(q, t) + large, Before(q, t * p) + small, p)
  {
    TimesIsProduct(large, p);
    TimesIsProduct(Before(q, t) + large, p);
    assert (Before(q, t) + large) * p == Before(q, t) * p + large * p;
    assert Before(q, t) * p == Before(q, t * p);
  }

  /** One level of the curve, over a cell and over a cell within it: the same quarter of both. */
  lemma LevelNests(k: nat, m: nat, x: nat, y: nat, x': nat, y': nat)
    returns (q: nat, large: (nat, nat), small: (nat, nat))
    requires 0 < k && x < Pow2(k) && y < Pow2(k) && x' < Pow2(k + m) && y' < Pow2(k + m)
    requires Nested(x, x', Pow2(m)) && Nested(y, y', Pow2(m))
    ensures large.0 < Pow2(k - 1) && large.1 < Pow2(k - 1) && small.0 < Pow2(k - 1 + m) && small.1 < Pow2(k - 1 + m)
    ensures Nested(large.0, small.0, Pow2(m)) && Nested(large.1, small.1, Pow2(m))
    ensures q < 4
    ensures Hilbert(k, x, y) == Before(q, TilesAt(k - 1)) + Hilbert(k - 1, large.0, large.1)
    ensures Hilbert(k + m, x', y') == Before(q, TilesAt(k - 1 + m)) + Hilbert(k - 1 + m, small.0, small.1)
  {
    var half, s := Pow2(k - 1), Pow2(k - 1 + m);
    Pow2Adds(k - 1, m);
    HalvesNest(half, Pow2(m), x, x');
    HalvesNest(half, Pow2(m), y, y');
    var rx, ry := High(x, half), High(y, half);
    TurningNests(half, Pow2(m), Low(x, half), Low(y, half), Low(x', s), Low(y', s), rx, ry);
    q := Quarter(rx, ry);
    large := Turned(half, Low(x, half), Low(y, half), rx, ry);
    small := Turned(s, Low(x', s), Low(y', s), rx, ry);
    assert k + m - 1 == k - 1 + m;
  }

  lemma WholeSquareIsOneRun(m: nat, x: nat, y: nat, x': nat, y': nat)
    requires x < Pow2(0) && y < Pow2(0) && x' < Pow2(m) && y' < Pow2(m)
    ensures Nested(Hilbert(0, x, y), Hilbert(0 + m, x', y'), TilesAt(m))
  {
    TimesIsProduct(0, TilesAt(m));
  }

  /**
   The property the block sweep leans on: the cells within one cell, m levels
   deeper, are one contiguous run of the curve, starting at the cell's own
   position times their number.
   */
  lemma {:induction false} DescendantsAreOneRun(k: nat, m: nat, x: nat, y: nat, x': nat, y': nat)
    requires x < Pow2(k) && y < Pow2(k) && x' < Pow2(k + m) && y' < Pow2(k + m)
    requires Nested(x, x', Pow2(m)) && Nested(y, y', Pow2(m))
    ensures Nested(Hilbert(k, x, y), Hilbert(k + m, x', y'), TilesAt(m))
  {
    hide *;
    if k == 0 {
      WholeSquareIsOneRun(m, x, y, x', y');
    } else {
      var q, large, small := LevelNests(k, m, x, y, x', y');
      DescendantsAreOneRun(k - 1, m, large.0, large.1, small.0, small.1);
      TilesMultiply(k - 1, m);
      QuartersNest(q, TilesAt(k - 1), TilesAt(m), Hilbert(k - 1, large.0, large.1),
                   Hilbert(k - 1 + m, small.0, small.1));
    }
  }

  /** The id of a tile. */
  function TileId(z: nat, x: nat, y: nat): (id: nat)
    requires x < Pow2(z) && y < Pow2(z)
    ensures FirstIdAt(z) <= id < FirstIdAt(z + 1)
  {
    ZoomsAbut(z);
    FirstIdAt(z) + Hilbert(z, x, y)
  }

  /** No two tiles share an id. */
  lemma TileIdIsInjective(z: nat, x: nat, y: nat, z': nat, x': nat, y': nat)
    requires x < Pow2(z) && y < Pow2(z) && x' < Pow2(z') && y' < Pow2(z')
    requires TileId(z, x, y) == TileId(z', x', y')
    ensures z == z' && x == x' && y == y'
  {
    hide Hilbert, Pow2, TilesAt;
    if z < z' {
      ZoomsAscend(z + 1, z');
    } else if z' < z {
      ZoomsAscend(z' + 1, z);
    } else {
      HilbertIsInjective(z, x, y, x', y');
    }
  }

  /** The quarter a position is in. */
  function QuarterOf(d: nat, n: nat): (q: nat)
    requires d < 4 * n
    ensures q < 4 && Before(q, n) <= d < Before(q, n) + n
  {
    if d < n then 0 else if d < 2 * n then 1 else if d < 3 * n then 2 else 3
  }

  /** A cell of a quarter, turned back and put in its place in the square. */
  function OutOfQuarter(k: nat, q: nat, inner: (nat, nat)): (p: (nat, nat))
    requires 0 < k && q < 4 && inner.0 < Pow2(k - 1) && inner.1 < Pow2(k - 1)
    ensures p.0 < Pow2(k) && p.1 < Pow2(k)
  {
    var s := Pow2(k - 1);
    var rx, ry := if q >= 2 then 1 else 0, if q == 1 || q == 2 then 1 else 0;
    var p := Turned(s, inner.0, inner.1, rx, ry);
    (p.0 + rx * s, p.1 + ry * s)
  }

  lemma PuttingBack(k: nat, q: nat, inner: (nat, nat))
    requires 0 < k && q < 4 && inner.0 < Pow2(k - 1) && inner.1 < Pow2(k - 1)
    ensures var p, s := OutOfQuarter(k, q, inner), Pow2(k - 1);
            InQuarter(k, p.0, p.1) == inner && Quarter(High(p.0, s), High(p.1, s)) == q
  {
  }

  /** The cell at a position along the curve. */
  function Cell(k: nat, d: nat): (p: (nat, nat))
    requires d < TilesAt(k)
    ensures p.0 < Pow2(k) && p.1 < Pow2(k)
  {
    if k == 0 then (0, 0)
    else
      var n := TilesAt(k - 1);
      var q := QuarterOf(d, n);
      OutOfQuarter(k, q, Cell(k - 1, d - Before(q, n)))
  }

  lemma HilbertUnfolds(k: nat, x: nat, y: nat)
    requires 0 < k && x < Pow2(k) && y < Pow2(k)
    ensures var s, p := Pow2(k - 1), InQuarter(k, x, y);
            Hilbert(k, x, y) == Before(Quarter(High(x, s), High(y, s)), TilesAt(k - 1)) + Hilbert(k - 1, p.0, p.1)
  {
    hide InQuarter, High, Quarter, Before, TilesAt, Pow2;
  }

  lemma CellUnfolds(k: nat, d: nat)
    requires 0 < k && d < TilesAt(k)
    ensures d < 4 * TilesAt(k - 1)
    ensures var n := TilesAt(k - 1);
            var q := QuarterOf(d, n);
            Cell(k, d) == OutOfQuarter(k, q, Cell(k - 1, d - Before(q, n)))
  {
    hide OutOfQuarter, Pow2, QuarterOf, Before;
  }

  /** The cell at a position is the one the curve puts there, so every position has one. */
  lemma {:induction false} CellIsAt(k: nat, d: nat)
    requires d < TilesAt(k)
    ensures Hilbert(k, Cell(k, d).0, Cell(k, d).1) == d
  {
    if k == 0 {
      assert d == 0;
    } else {
      hide *;
      CellUnfolds(k, d);
      var n := TilesAt(k - 1);
      var q := QuarterOf(d, n);
      CellIsAt(k - 1, d - Before(q, n));
      StepIsAt(k, d, q, n, Cell(k - 1, d - Before(q, n)));
    }
  }

  lemma StepIsAt(k: nat, d: nat, q: nat, n: nat, inner: (nat, nat))
    requires 0 < k && d < TilesAt(k) && q < 4 && inner.0 < Pow2(k - 1) && inner.1 < Pow2(k - 1)
    requires n == TilesAt(k - 1) && Before(q, n) <= d && Hilbert(k - 1, inner.0, inner.1) == d - Before(q, n)
    ensures var p := OutOfQuarter(k, q, inner); Hilbert(k, p.0, p.1) == d
  {
    hide *;
    var p := OutOfQuarter(k, q, inner);
    PuttingBack(k, q, inner);
    HilbertUnfolds(k, p.0, p.1);
  }

  /** A tile: its zoom, column and row. */
  datatype Zxy = Zxy(z: nat, x: nat, y: nat)

  function ZoomFrom(id: nat, z: nat): (zoom: nat)
    requires FirstIdAt(z) <= id
    ensures z <= zoom && FirstIdAt(zoom) <= id < FirstIdAt(zoom + 1)
    decreases id - FirstIdAt(z)
  {
    ZoomsAbut(z);
    if id < FirstIdAt(z + 1) then z else ZoomFrom(id, z + 1)
  }

  /** The tile an id is of. */
  function ZxyOf(id: nat): (t: Zxy)
    ensures t.x < Pow2(t.z) && t.y < Pow2(t.z)
  {
    var z := ZoomFrom(id, 0);
    ZoomsAbut(z);
    var p := Cell(z, id - FirstIdAt(z));
    Zxy(z, p.0, p.1)
  }

  lemma TileIsAt(id: nat)
    ensures var z := ZoomFrom(id, 0);
            && 0 <= id - FirstIdAt(z) < TilesAt(z)
            && ZxyOf(id) == Zxy(z, Cell(z, id - FirstIdAt(z)).0, Cell(z, id - FirstIdAt(z)).1)
            && TileId(z, ZxyOf(id).x, ZxyOf(id).y) == FirstIdAt(z) + Hilbert(z, ZxyOf(id).x, ZxyOf(id).y)
  {
    hide Cell, Hilbert, FirstIdAt, TilesAt, Pow2, ZoomFrom;
    ZoomsAbut(ZoomFrom(id, 0));
  }

  /** Ids and tiles match one to one. */
  lemma IdsAreTiles(id: nat)
    ensures var t := ZxyOf(id); TileId(t.z, t.x, t.y) == id
  {
    hide *;
    var z := ZoomFrom(id, 0);
    ZoomsAbut(z);
    CellIsAt(z, id - FirstIdAt(z));
    TileIsAt(id);
  }

  lemma TilesAreIds(z: nat, x: nat, y: nat)
    requires x < Pow2(z) && y < Pow2(z)
    ensures ZxyOf(TileId(z, x, y)) == Zxy(z, x, y)
  {
    var t := ZxyOf(TileId(z, x, y));
    IdsAreTiles(TileId(z, x, y));
    TileIdIsInjective(z, x, y, t.z, t.x, t.y);
  }

  /** The end of a run of ids, which may be open. */
  datatype Limit = Until(id: nat) | Infinity {
    predicate Allows(id: nat) {
      Infinity? || id < this.id
    }
  }

  /** Strictly ascending, so also without repeats. */
  ghost predicate Climbs(ids: seq<nat>) {
    forall i, j :: 0 <= i < j < |ids| ==> ids[i] < ids[j]
  }

  /** Chunks put back together. */
  ghost function Flat<T>(chunks: seq<seq<T>>): seq<T> {
    if chunks == [] then [] else Flat(chunks[..|chunks| - 1]) + chunks[|chunks| - 1]
  }

  lemma FlatOfOneMore<T>(chunks: seq<seq<T>>, chunk: seq<T>)
    ensures Flat(chunks + [chunk]) == Flat(chunks) + chunk
  {
    assert (chunks + [chunk])[..|chunks|] == chunks;
  }
}
