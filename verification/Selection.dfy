/** Which part of a stack a bake writes: fewer zooms, a box of ground, or one run of tile ids. */
module Selection {
  import opened Archive
  import opened Powers
  import opened TileIds

  /** A run of ids, half-open. */
  datatype Span = Span(from: nat, to: Limit) {
    predicate Has(id: nat) {
      from <= id && to.Allows(id)
    }
  }

  /** Degrees. */
  datatype Bounds = Bounds(west: real, south: real, east: real, north: real)

  /** What says nothing selects everything. */
  datatype Selection = Selection(minzoom: Option<nat>, maxzoom: Option<nat>, bounds: Option<Bounds>, span: Option<Span>)

  function Later(a: nat, b: nat): nat {
    if a < b then b else a
  }

  function Sooner(a: Limit, b: Limit): Limit {
    if a.Until? && b.Allows(a.id) then a else b
  }

  /** The run of ids a selection's zooms and span leave. */
  function IdSpanOf(selection: Selection): Span {
    var from := if selection.minzoom.None? then 0 else FirstIdAt(selection.minzoom.value);
    var to := if selection.maxzoom.None? then Infinity else Until(FirstIdAt(selection.maxzoom.value + 1));
    if selection.span.None? then Span(from, to)
    else Span(Later(from, selection.span.value.from), Sooner(to, selection.span.value.to))
  }

  /** How far east a longitude is, as a share of the map. */
  function WorldX(lon: real): real {
    (lon + 180.0) / 360.0
  }

  /** The tile a share of the map falls in. */
  function TileAt(share: real, z: nat): int {
    (share * Pow2(z) as real).Floor
  }

  function Clamped(lat: real): real {
    if lat < -85.051129 then -85.051129 else if lat > 85.051129 then 85.051129 else lat
  }

  /**
   Whether a tile lies between the box's outermost columns and rows. worldY is how far south a latitude
   is, as a share of the map.
   */
  predicate InBox(bounds: Bounds, t: Zxy, worldY: real -> real) {
    && TileAt(WorldX(bounds.west), t.z) <= t.x <= TileAt(WorldX(bounds.east), t.z)
    && TileAt(worldY(Clamped(bounds.north)), t.z) <= t.y <= TileAt(worldY(Clamped(bounds.south)), t.z)
  }

  /** Whether a tile is one the selection asked for. */
  predicate Selects(selection: Selection, id: nat, worldY: real -> real) {
    var t := ZxyOf(id);
    && (selection.span.Some? ==> selection.span.value.Has(id))
    && (selection.minzoom.Some? ==> selection.minzoom.value <= t.z)
    && (selection.maxzoom.Some? ==> t.z <= selection.maxzoom.value)
    && (selection.bounds.Some? ==> InBox(selection.bounds.value, t, worldY))
  }

  lemma ZoomIsARun(id: nat, z: nat)
    ensures z <= ZxyOf(id).z <==> FirstIdAt(z) <= id
    ensures ZxyOf(id).z <= z <==> id < FirstIdAt(z + 1)
  {
    var at := ZxyOf(id).z;
    hide FirstIdAt, Cell;
    if z <= at {
      ZoomsAscend(z, at);
    } else {
      ZoomsAscend(at + 1, z);
    }
    if at <= z {
      ZoomsAscend(at + 1, z + 1);
    } else {
      ZoomsAscend(z + 1, at);
    }
  }

  /** Without a box, what is selected is exactly the span; with one, it is the part of the span in the box. */
  lemma SelectedIsTheSpan(selection: Selection, id: nat, worldY: real -> real)
    ensures Selects(selection, id, worldY) <==>
              && IdSpanOf(selection).Has(id)
              && (selection.bounds.Some? ==> InBox(selection.bounds.value, ZxyOf(id), worldY))
  {
    hide FirstIdAt, ZxyOf, InBox;
    if selection.minzoom.Some? {
      ZoomIsARun(id, selection.minzoom.value);
    }
    if selection.maxzoom.Some? {
      ZoomIsARun(id, selection.maxzoom.value);
    }
  }

  /** A share of the map that lies in a tile. */
  ghost predicate LiesIn(share: real, at: int, z: nat) {
    at as real <= share * Pow2(z) as real < at as real + 1.0
  }

  lemma SharesAscend(a: real, b: real, n: real)
    requires a <= b && 0.0 <= n
    ensures a * n <= b * n
  {
  }

  lemma ShareOf(v: real, n: real)
    requires 0.0 < n
    ensures v / n * n == v
  {
  }

  lemma LyingBetween(lo: real, hi: real, at: int, z: nat, share: real)
    requires lo <= share <= hi && LiesIn(share, at, z)
    ensures TileAt(lo, z) <= at <= TileAt(hi, z)
  {
    SharesAscend(lo, share, Pow2(z) as real);
    SharesAscend(share, hi, Pow2(z) as real);
  }

  /** A tile is between two places' tiles exactly when it overlaps the stretch between them. */
  lemma BetweenIsOverlap(lo: real, hi: real, at: int, z: nat)
    requires lo <= hi
    ensures TileAt(lo, z) <= at <= TileAt(hi, z) <==> exists share :: lo <= share <= hi && LiesIn(share, at, z)
  {
    var n := Pow2(z) as real;
    if TileAt(lo, z) <= at <= TileAt(hi, z) {
      if TileAt(lo, z) == at {
        assert LiesIn(lo, at, z);
      } else {
        var share := at as real / n;
        ShareOf(at as real, n);
        assert LiesIn(share, at, z);
        assert lo * n < share * n <= hi * n;
        if share < lo {
          SharesAscend(share, lo, n);
        }
        if hi < share {
          SharesAreApart(hi, share, n);
        }
      }
    }
    if exists share :: lo <= share <= hi && LiesIn(share, at, z) {
      var share :| lo <= share <= hi && LiesIn(share, at, z);
      LyingBetween(lo, hi, at, z, share);
    }
  }

  lemma SharesAreApart(a: real, b: real, n: real)
    requires a < b && 0.0 < n
    ensures a * n < b * n
  {
  }

  /** A latitude on the map. */
  predicate OnMap(lat: real) {
    -85.051129 <= lat <= 85.051129
  }

  /** A latitude is taken for the nearest there is on the map. */
  lemma ClampedIsNearest(lat: real, other: real)
    requires OnMap(other)
    ensures OnMap(Clamped(lat))
    ensures lat < Clamped(lat) ==> Clamped(lat) <= other
    ensures Clamped(lat) < lat ==> other <= Clamped(lat)
  {
  }

  /** A box selects exactly the tiles that overlap it, those straddling its edge included. */
  lemma BoxIsOverlap(bounds: Bounds, t: Zxy, worldY: real -> real)
    requires bounds.west <= bounds.east && worldY(Clamped(bounds.north)) <= worldY(Clamped(bounds.south))
    ensures InBox(bounds, t, worldY) <==>
              && (exists share ::
                  bounds.west <= share * 360.0 - 180.0 <= bounds.east && LiesIn(share, t.x, t.z))
              && (exists share ::
                  worldY(Clamped(bounds.north)) <= share <= worldY(Clamped(bounds.south)) &&
                  LiesIn(share, t.y, t.z))
  {
    forall share | LiesIn(share, t.x, t.z)
      ensures WorldX(bounds.west) <= share <= WorldX(bounds.east) <==>
                bounds.west <= share * 360.0 - 180.0 <= bounds.east
    {
    }
    BetweenIsOverlap(WorldX(bounds.west), WorldX(bounds.east), t.x, t.z);
    BetweenIsOverlap(worldY(Clamped(bounds.north)), worldY(Clamped(bounds.south)), t.y, t.z);
  }

  /** One shard of a selection: the same, of a run of ids. */
  function ShardOf(selection: Selection, from: nat, to: nat): Selection {
    selection.(span := Some(Span(from, Until(to))))
  }

  /** A shard selects what its bake does within its run, and nothing else, even where the bake was itself of a run. */
  lemma ShardSelects(selection: Selection, from: nat, to: nat, id: nat, worldY: real -> real)
    requires selection.span.Some? ==>
             selection.span.value.from <= from && (selection.span.value.to.Until? ==> to <= selection.span.value.to.id)
    ensures Selects(ShardOf(selection, from, to), id, worldY) <==> from <= id < to && Selects(selection, id, worldY)
  {
  }
}
