/**
 What makes the curve ids follow the Hilbert curve: at every zoom it runs from
 the north-western corner to the north-eastern one, a tile at a time and never
 jumping, and the next zoom's refines it. No other curve does.
 */
module Curve {
  import opened Powers
  import opened TileIds

  type Place = (nat, nat)

  /** Side by side, or one above the other. */
  predicate Adjacent(a: Place, b: Place) {
    if a.0 == b.0 then a.1 == b.1 + 1 || b.1 == a.1 + 1
    else a.1 == b.1 && (a.0 == b.0 + 1 || b.0 == a.0 + 1)
  }

  lemma Corners(k: nat)
    requires 0 < k
    ensures OutOfQuarter(k, 0, (0, 0)) == (0, 0)
    ensures OutOfQuarter(k, 3, (Pow2(k - 1) - 1, 0)) == (Pow2(k) - 1, 0)
  {
  }

  lemma FirstAndLastQuarter(n: nat)
    requires 0 < n
    ensures QuarterOf(0, n) == 0 && QuarterOf(4 * n - 1, n) == 3
    ensures Before(0, n) == 0 && 4 * n - 1 - Before(3, n) == n - 1
  {
  }

  /** The curve begins in the first corner of the top row and ends in the last. */
  lemma {:induction false} CurveEnds(k: nat)
    ensures Cell(k, 0) == (0, 0) && Cell(k, TilesAt(k) - 1) == (Pow2(k) - 1, 0)
  {
    hide *;
    if k == 0 {
      OneCell();
    } else {
      CurveEnds(k - 1);
      TilesAtIs(k);
      FirstAndLastQuarter(TilesAt(k - 1));
      CellUnfolds(k, 0);
      CellUnfolds(k, TilesAt(k) - 1);
      Corners(k);
    }
  }

  lemma OneCell()
    ensures TilesAt(0) == 1 && Pow2(0) == 1 && Cell(0, 0) == (0, 0)
  {
  }

  lemma OneTile()
    ensures TilesAt(0) == 1
  {
  }

  lemma TilesAtIs(k: nat)
    requires 0 < k
    ensures TilesAt(k) == 4 * TilesAt(k - 1)
  {
  }

  /** Putting a quarter in its place keeps what is side by side so. */
  lemma PuttingKeepsAdjacent(k: nat, q: nat, a: Place, b: Place)
    requires 0 < k && q < 4 && Adjacent(a, b)
    requires a.0 < Pow2(k - 1) && a.1 < Pow2(k - 1) && b.0 < Pow2(k - 1) && b.1 < Pow2(k - 1)
    ensures Adjacent(OutOfQuarter(k, q, a), OutOfQuarter(k, q, b))
  {
    hide Pow2;
  }

  /** Where one quarter ends the next begins beside it. */
  lemma QuartersMeet(k: nat, q: nat)
    requires 0 < k && q < 3
    ensures Adjacent(OutOfQuarter(k, q, (Pow2(k - 1) - 1, 0)), OutOfQuarter(k, q + 1, (0, 0)))
  {
    hide Pow2;
  }

  lemma QuarterGoesOn(d: nat, n: nat)
    requires d + 1 < 4 * n
    ensures var q := QuarterOf(d, n);
            if d + 1 < Before(q, n) + n then QuarterOf(d + 1, n) == q
            else q < 3 && QuarterOf(d + 1, n) == q + 1 && Before(q + 1, n) == d + 1 && d - Before(q, n) == n - 1
  {
  }

  lemma UnfoldsIn(k: nat, d: nat, q: nat, n: nat)
    requires 0 < k && d < TilesAt(k) && n == TilesAt(k - 1) && d < 4 * n && q == QuarterOf(d, n)
    ensures Before(q, n) <= d < Before(q, n) + n && q < 4
    ensures Cell(k, d) == OutOfQuarter(k, q, Cell(k - 1, d - Before(q, n)))
  {
    hide *;
    CellUnfolds(k, d);
  }

  /** From one position to the next the curve goes to a tile beside it. */
  lemma {:induction false} CurveNeverJumps(k: nat, d: nat)
    requires d + 1 < TilesAt(k)
    ensures Adjacent(Cell(k, d), Cell(k, d + 1))
  {
    hide *;
    if k == 0 {
      OneTile();
    } else {
      TilesAtIs(k);
      var n := TilesAt(k - 1);
      var q := QuarterOf(d, n);
      QuarterGoesOn(d, n);
      UnfoldsIn(k, d, q, n);
      UnfoldsIn(k, d + 1, QuarterOf(d + 1, n), n);
      if d + 1 < Before(q, n) + n {
        CurveNeverJumps(k - 1, d - Before(q, n));
        PuttingKeepsAdjacent(k, q, Cell(k - 1, d - Before(q, n)), Cell(k - 1, d - Before(q, n) + 1));
      } else {
        CurveEnds(k - 1);
        QuartersMeet(k, q);
      }
    }
  }

  /** A curve for every zoom: how many zooms down, and how far along. */
  type Drawn = (nat, nat) -> Place

  /** From corner to corner of the top row. */
  ghost predicate Spans(c: Drawn) {
    forall k: nat :: c(k, 0) == (0, 0) && c(k, TilesAt(k) - 1) == (Pow2(k) - 1, 0)
  }

  ghost predicate NeverJumps(c: Drawn) {
    forall k: nat, d: nat :: d + 1 < TilesAt(k) ==> Adjacent(c(k, d), c(k, d + 1))
  }

  ghost predicate NeverRepeats(c: Drawn) {
    forall k: nat, d: nat, e: nat :: d < e < TilesAt(k) ==> c(k, d) != c(k, e)
  }

  /** The tile a tile of the next zoom is part of. */
  function Around(p: Place): Place {
    (p.0 / 2, p.1 / 2)
  }

  /** Each tile's four parts come one after the other, where the tile did. */
  ghost predicate Refines(c: Drawn) {
    forall k: nat, d: nat :: d < TilesAt(k + 1) ==> Around(c(k + 1, d)) == c(k, d / 4)
  }

  ghost predicate IsHilbert(c: Drawn) {
    Spans(c) && NeverJumps(c) && NeverRepeats(c) && Refines(c)
  }

  /** Out of one tile into the next there is one way for each part. */
  lemma OneWayIn(from: Place, a: Place, b: Place)
    requires Adjacent(from, a) && Adjacent(from, b) && Around(a) == Around(b) != Around(from)
    ensures a == b
  {
  }

  /** A way through the four parts of a tile. */
  ghost predicate Through(tile: Place, p: seq<Place>) {
    && |p| == 4 && (forall i :: 0 <= i < 4 ==> Around(p[i]) == tile)
    && Adjacent(p[0], p[1]) && Adjacent(p[1], p[2]) && Adjacent(p[2], p[3])
    && p[0] != p[2] && p[0] != p[3] && p[1] != p[3]
  }

  /** It is settled by where it begins and ends. */
  lemma OneWayThrough(tile: Place, p: seq<Place>, q: seq<Place>)
    requires Through(tile, p) && Through(tile, q) && p[0] == q[0] && p[3] == q[3]
    ensures p == q
  {
    assert forall i :: 0 <= i < 4 ==> Around(p[i]) == tile && Around(q[i]) == tile;
    BesideTwo(tile, p[0], p[3], p[1], q[1], p[2], q[2]);
  }

  lemma BesideTwo(tile: Place, from: Place, to: Place, a: Place, a': Place, b: Place, b': Place)
    requires Around(from) == tile && Around(to) == tile && Around(a) == tile && Around(a') == tile
    requires Around(b) == tile && Around(b') == tile
    requires Adjacent(from, a) && Adjacent(a, b) && Adjacent(b, to) && from != b && from != to && a != to
    requires Adjacent(from, a') && Adjacent(a', b') && Adjacent(b', to) && from != b' && a' != to
    ensures a == a' && b == b'
  {
  }

  /** And where it ends, by the tile that comes next. */
  lemma OneWayOut(tile: Place, p: seq<Place>, q: seq<Place>, a: Place, b: Place)
    requires Through(tile, p) && Through(tile, q) && p[0] == q[0]
    requires Adjacent(p[3], a) && Adjacent(q[3], b) && Around(a) == Around(b) != tile
    ensures p[3] == q[3]
  {
    assert forall i :: 0 <= i < 4 ==> Around(p[i]) == tile && Around(q[i]) == tile;
    EndsBeside(tile, p[0], p[1], p[2], p[3]);
    EndsBeside(tile, q[0], q[1], q[2], q[3]);
    OneEnd(tile, p[0], p[3], q[3], a, b);
  }

  /** A way through four parts ends beside where it began. */
  lemma EndsBeside(tile: Place, a: Place, b: Place, c: Place, d: Place)
    requires Around(a) == tile && Around(b) == tile && Around(c) == tile && Around(d) == tile
    requires Adjacent(a, b) && Adjacent(b, c) && Adjacent(c, d) && a != c && a != d && b != d
    ensures Adjacent(a, d)
  {
  }

  lemma OneEnd(tile: Place, from: Place, to: Place, to': Place, a: Place, b: Place)
    requires Around(from) == tile && Around(to) == tile && Around(to') == tile
    requires Adjacent(from, to) && Adjacent(from, to') && Adjacent(to, a) && Adjacent(to', b)
    requires Around(a) == Around(b) != tile
    ensures to == to'
  {
  }

  /** The parts of the tile at one position. */
  ghost function PartsOf(c: Drawn, k: nat, d: nat): seq<Place> {
    [c(k + 1, 4 * d), c(k + 1, 4 * d + 1), c(k + 1, 4 * d + 2), c(k + 1, 4 * d + 3)]
  }

  lemma PartsAreThrough(c: Drawn, k: nat, d: nat)
    requires IsHilbert(c) && d < TilesAt(k)
    ensures Through(c(k, d), PartsOf(c, k, d))
  {
    HilbertParts(c);
    hide *;
    TilesAtIs(k + 1);
    var e0, e1, e2, e3 := 4 * d, 4 * d + 1, 4 * d + 2, 4 * d + 3;
    PartsAre(c, k, d);
    NextTo(c, k + 1, e0, e1);
    NextTo(c, k + 1, e1, e2);
    NextTo(c, k + 1, e2, e3);
    RefinedAt(c, k, d, e0);
    RefinedAt(c, k, d, e1);
    RefinedAt(c, k, d, e2);
    RefinedAt(c, k, d, e3);
    Differ(c, k + 1, e0, e2);
    Differ(c, k + 1, e0, e3);
    Differ(c, k + 1, e1, e3);
    ThroughIs(c(k, d), c(k + 1, e0), c(k + 1, e1), c(k + 1, e2), c(k + 1, e3));
  }

  lemma HilbertParts(c: Drawn)
    requires IsHilbert(c)
    ensures Spans(c) && NeverJumps(c) && NeverRepeats(c) && Refines(c)
  {
  }

  lemma PartsAre(c: Drawn, k: nat, d: nat)
    ensures PartsOf(c, k, d) == [c(k + 1, 4 * d), c(k + 1, 4 * d + 1), c(k + 1, 4 * d + 2), c(k + 1, 4 * d + 3)]
  {
  }

  lemma ThroughIs(tile: Place, a: Place, b: Place, c: Place, d: Place)
    requires Around(a) == tile && Around(b) == tile && Around(c) == tile && Around(d) == tile
    requires Adjacent(a, b) && Adjacent(b, c) && Adjacent(c, d) && a != c && a != d && b != d
    ensures Through(tile, [a, b, c, d])
  {
    hide Adjacent, Around;
  }

  lemma Differ(c: Drawn, k: nat, d: nat, e: nat)
    requires NeverRepeats(c) && d < e < TilesAt(k)
    ensures c(k, d) != c(k, e)
  {
  }

  lemma NextTo(c: Drawn, k: nat, d: nat, e: nat)
    requires NeverJumps(c) && e == d + 1 < TilesAt(k)
    ensures Adjacent(c(k, d), c(k, e))
  {
    hide Adjacent;
  }

  lemma RefinedAt(c: Drawn, k: nat, d: nat, e: nat)
    requires Refines(c) && 4 * d <= e < 4 * d + 4 && e < TilesAt(k + 1)
    ensures Around(c(k + 1, e)) == c(k, d)
  {
    hide Around;
    assert e / 4 == d;
  }

  ghost predicate SameAt(a: Drawn, b: Drawn, k: nat) {
    forall d: nat :: d < TilesAt(k) ==> a(k, d) == b(k, d)
  }

  lemma SameIs(a: Drawn, b: Drawn, k: nat, d: nat)
    requires SameAt(a, b, k) && d < TilesAt(k)
    ensures a(k, d) == b(k, d)
  {
  }

  /** Where two curves are the same up to a part, they come to the same one next. */
  lemma SameEntry(a: Drawn, b: Drawn, k: nat, d: nat)
    requires IsHilbert(a) && IsHilbert(b) && SameAt(a, b, k) && 0 < d < TilesAt(k)
    requires a(k + 1, 4 * d - 1) == b(k + 1, 4 * d - 1)
    ensures a(k + 1, 4 * d) == b(k + 1, 4 * d)
  {
    HilbertParts(a);
    HilbertParts(b);
    hide *;
    TilesAtIs(k + 1);
    SameIs(a, b, k, d);
    NextTo(a, k + 1, 4 * d - 1, 4 * d);
    NextTo(b, k + 1, 4 * d - 1, 4 * d);
    RefinedAt(a, k, d, 4 * d);
    RefinedAt(b, k, d, 4 * d);
    RefinedAt(a, k, d - 1, 4 * d - 1);
    Differ(a, k, d - 1, d);
    OneWayIn(a(k + 1, 4 * d - 1), a(k + 1, 4 * d), b(k + 1, 4 * d));
  }

  /** And, on the way to the same tile, leave it by the same part. */
  lemma SameExit(a: Drawn, b: Drawn, k: nat, d: nat)
    requires IsHilbert(a) && IsHilbert(b) && SameAt(a, b, k) && d < TilesAt(k)
    requires a(k + 1, 4 * d) == b(k + 1, 4 * d)
    ensures a(k + 1, 4 * d + 3) == b(k + 1, 4 * d + 3)
  {
    HilbertParts(a);
    HilbertParts(b);
    hide *;
    TilesAtIs(k + 1);
    if d + 1 == TilesAt(k) {
      EndsAt(a, k + 1);
      EndsAt(b, k + 1);
    } else {
      SameWayOn(a, b, k, d);
    }
  }

  lemma SameWayOn(a: Drawn, b: Drawn, k: nat, d: nat)
    requires IsHilbert(a) && IsHilbert(b) && SameAt(a, b, k) && d + 1 < TilesAt(k)
    requires a(k + 1, 4 * d) == b(k + 1, 4 * d)
    ensures a(k + 1, 4 * d + 3) == b(k + 1, 4 * d + 3)
  {
    HilbertParts(a);
    HilbertParts(b);
    hide *;
    var next, e0, e3, e4 := d + 1, 4 * d, 4 * d + 3, 4 * d + 4;
    var p, q := PartsOf(a, k, d), PartsOf(b, k, d);
    TilesAtIs(k + 1);
    PartsAreThrough(a, k, d);
    PartsAreThrough(b, k, d);
    PartsEndAt(a, k, d);
    PartsEndAt(b, k, d);
    SameIs(a, b, k, d);
    SameIs(a, b, k, next);
    NextTo(a, k + 1, e3, e4);
    NextTo(b, k + 1, e3, e4);
    RefinedAt(a, k, next, e4);
    RefinedAt(b, k, next, e4);
    Differ(a, k, d, next);
    OneWayOut(a(k, d), p, q, a(k + 1, e4), b(k + 1, e4));
  }

  lemma PartsEndAt(c: Drawn, k: nat, d: nat)
    ensures |PartsOf(c, k, d)| == 4
    ensures PartsOf(c, k, d)[0] == c(k + 1, 4 * d) && PartsOf(c, k, d)[3] == c(k + 1, 4 * d + 3)
  {
  }

  lemma EndsAt(c: Drawn, k: nat)
    requires Spans(c)
    ensures c(k, 0) == (0, 0) && c(k, TilesAt(k) - 1) == (Pow2(k) - 1, 0)
  {
  }

  lemma {:induction false} SameParts(a: Drawn, b: Drawn, k: nat, d: nat)
    requires IsHilbert(a) && IsHilbert(b) && SameAt(a, b, k) && d < TilesAt(k)
    ensures PartsOf(a, k, d) == PartsOf(b, k, d)
    decreases d
  {
    HilbertParts(a);
    HilbertParts(b);
    hide *;
    if d == 0 {
      EndsAt(a, k + 1);
      EndsAt(b, k + 1);
    } else {
      SameParts(a, b, k, d - 1);
      LastPart(a, b, k, d - 1);
      SameEntry(a, b, k, d);
    }
    SameExit(a, b, k, d);
    SameIs(a, b, k, d);
    PartsAreThrough(a, k, d);
    PartsAreThrough(b, k, d);
    PartsEndAt(a, k, d);
    PartsEndAt(b, k, d);
    OneWayThrough(a(k, d), PartsOf(a, k, d), PartsOf(b, k, d));
  }

  lemma LastPart(a: Drawn, b: Drawn, k: nat, d: nat)
    requires PartsOf(a, k, d) == PartsOf(b, k, d)
    ensures a(k + 1, 4 * d + 3) == b(k + 1, 4 * d + 3)
  {
    assert PartsOf(a, k, d)[3] == PartsOf(b, k, d)[3];
  }

  lemma {:induction false} SameEverywhere(a: Drawn, b: Drawn, k: nat)
    requires IsHilbert(a) && IsHilbert(b)
    ensures SameAt(a, b, k)
  {
    hide *;
    if k == 0 {
      SameAtFirst(a, b);
    } else {
      SameEverywhere(a, b, k - 1);
      TilesAtIs(k);
      forall d: nat | d < TilesAt(k)
        ensures a(k, d) == b(k, d)
      {
        SameParts(a, b, k - 1, d / 4);
        OneOfItsParts(a, b, k - 1, d);
      }
      SameAtIs(a, b, k);
    }
  }

  lemma SameAtFirst(a: Drawn, b: Drawn)
    requires IsHilbert(a) && IsHilbert(b)
    ensures SameAt(a, b, 0)
  {
    EndsAt(a, 0);
    EndsAt(b, 0);
    OneTile();
  }

  lemma SameAtIs(a: Drawn, b: Drawn, k: nat)
    requires forall d: nat :: d < TilesAt(k) ==> a(k, d) == b(k, d)
    ensures SameAt(a, b, k)
  {
  }

  lemma OneOfItsParts(a: Drawn, b: Drawn, k: nat, d: nat)
    requires PartsOf(a, k, d / 4) == PartsOf(b, k, d / 4)
    ensures a(k + 1, d) == b(k + 1, d)
  {
    var at, j := d / 4, d % 4;
    assert PartsOf(a, k, at)[j] == PartsOf(b, k, at)[j];
    assert d == 4 * at + j;
  }

  /** The curve ids follow, at every zoom. */
  function Drawing(): Drawn {
    (k: nat, d: nat) => if d < TilesAt(k) then Cell(k, d) else (0, 0)
  }

  lemma CellsDiffer(k: nat, d: nat, e: nat)
    requires d < e < TilesAt(k)
    ensures Cell(k, d) != Cell(k, e)
  {
    hide *;
    CellIsAt(k, d);
    CellIsAt(k, e);
  }

  /** The tile around one is at the quarter of its position. */
  lemma CellsRefine(k: nat, d: nat)
    requires d < TilesAt(k + 1)
    ensures d / 4 < TilesAt(k) && Around(Cell(k + 1, d)) == Cell(k, d / 4)
  {
    var p := Cell(k + 1, d);
    var tile := Around(p);
    assert Pow2(k + 1) == 2 * Pow2(k) && TilesAt(k + 1) == 4 * TilesAt(k) && Pow2(1) == 2 && TilesAt(1) == 4;
    TimesIsProduct(tile.0, 2);
    TimesIsProduct(tile.1, 2);
    TimesIsProduct(Hilbert(k, tile.0, tile.1), 4);
    hide Cell, Hilbert, Pow2, TilesAt, Times;
    DescendantsAreOneRun(k, 1, tile.0, tile.1, p.0, p.1);
    CellIsAt(k + 1, d);
    CellIsAt(k, d / 4);
    HilbertIsInjective(k, tile.0, tile.1, Cell(k, d / 4).0, Cell(k, d / 4).1);
  }

  lemma DrawingIs(k: nat, d: nat)
    requires d < TilesAt(k)
    ensures Drawing()(k, d) == Cell(k, d)
  {
  }

  lemma DrawingSpans()
    ensures Spans(Drawing())
  {
    hide Cell;
    forall k: nat
      ensures Drawing()(k, 0) == (0, 0) && Drawing()(k, TilesAt(k) - 1) == (Pow2(k) - 1, 0)
    {
      CurveEnds(k);
    }
  }

  lemma DrawingNeverJumps()
    ensures NeverJumps(Drawing())
  {
    hide Cell, Adjacent;
    forall k: nat, d: nat | d + 1 < TilesAt(k)
      ensures Adjacent(Drawing()(k, d), Drawing()(k, d + 1))
    {
      CurveNeverJumps(k, d);
    }
  }

  lemma DrawingNeverRepeats()
    ensures NeverRepeats(Drawing())
  {
    hide Cell;
    forall k: nat, d: nat, e: nat | d < e < TilesAt(k)
      ensures Drawing()(k, d) != Drawing()(k, e)
    {
      CellsDiffer(k, d, e);
    }
  }

  lemma DrawingRefines()
    ensures Refines(Drawing())
  {
    hide Cell, Around;
    forall k: nat, d: nat | d < TilesAt(k + 1)
      ensures Around(Drawing()(k + 1, d)) == Drawing()(k, d / 4)
    {
      CellsRefine(k, d);
    }
  }

  /**
   Ids follow the Hilbert curve: a curve runs from corner to corner of the top
   row, never jumps, never repeats, and refines itself from zoom to zoom, exactly
   where it is this one.
   */
  lemma OneHilbertCurve(c: Drawn, k: nat, d: nat)
    requires d < TilesAt(k)
    ensures IsHilbert(Drawing())
    ensures IsHilbert(c) ==> c(k, d) == Cell(k, d)
  {
    hide *;
    DrawingSpans();
    DrawingNeverJumps();
    DrawingNeverRepeats();
    DrawingRefines();
    AllParts(Drawing());
    if IsHilbert(c) {
      SameEverywhere(c, Drawing(), k);
      SameIs(c, Drawing(), k, d);
      DrawingIs(k, d);
    }
  }

  lemma AllParts(c: Drawn)
    requires Spans(c) && NeverJumps(c) && NeverRepeats(c) && Refines(c)
    ensures IsHilbert(c)
  {
    hide Spans, NeverJumps, NeverRepeats, Refines;
  }

  lemma IdIs(z: nat, x: nat, y: nat)
    requires x < Pow2(z) && y < Pow2(z)
    ensures TileId(z, x, y) == FirstIdAt(z) + Hilbert(z, x, y) && FirstIdAt(z + 1) == FirstIdAt(z) + TilesAt(z)
    ensures Cell(z, Hilbert(z, x, y)) == (x, y)
  {
    ZoomsAbut(z);
    var d := Hilbert(z, x, y);
    assert TileId(z, x, y) == FirstIdAt(z) + d;
    hide *;
    CellIsAt(z, d);
    HilbertIsInjective(z, x, y, Cell(z, d).0, Cell(z, d).1);
  }

  /**
   The ids of a zoom begin at its first corner and end at its last, and those in
   between are of tiles side by side.
   */
  lemma IdsFollowTheCurve(z: nat, x: nat, y: nat, x': nat, y': nat)
    requires x < Pow2(z) && y < Pow2(z) && x' < Pow2(z) && y' < Pow2(z)
    ensures TileId(z, 0, 0) == FirstIdAt(z) && TileId(z, Pow2(z) - 1, 0) == FirstIdAt(z + 1) - 1
    ensures TileId(z, x', y') == TileId(z, x, y) + 1 ==> Adjacent((x, y), (x', y'))
  {
    hide *;
    IdIs(z, 0, 0);
    IdIs(z, Pow2(z) - 1, 0);
    IdIs(z, x, y);
    IdIs(z, x', y');
    CurveEnds(z);
    CellIsAt(z, 0);
    CellIsAt(z, TilesAt(z) - 1);
    var d := Hilbert(z, x, y);
    if Hilbert(z, x', y') == d + 1 {
      CurveNeverJumps(z, d);
    }
  }
}
