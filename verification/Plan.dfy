/** Cutting a bake into shards of roughly equal work. */
module Plan {
  import opened Coverage
  import opened TileIds
  import opened Union

  /** A run of tile ids, how many tiles it holds, and what they cost. */
  datatype Shard = Shard(index: nat, from: nat, to: nat, tiles: nat, work: nat) {
    predicate Has(id: nat) {
      from <= id < to
    }
  }

  /** A tile costs what it is merged from. */
  function WorkOf(h: Held): (work: nat)
    ensures 1 <= work && h.sources <= work && (work == 1 || work == h.sources)
  {
    if h.sources < 1 then 1 else h.sources
  }

  function Work(tiles: seq<Held>): (work: nat)
    ensures |tiles| <= work
  {
    if tiles == [] then 0 else Work(tiles[..|tiles| - 1]) + WorkOf(tiles[|tiles| - 1])
  }

  lemma WorkOfOneMore(tiles: seq<Held>, h: Held)
    ensures Work(tiles + [h]) == Work(tiles) + WorkOf(h)
  {
    assert (tiles + [h])[..|tiles|] == tiles;
  }

  lemma NoWork()
    ensures Work([]) == 0
  {
  }

  lemma WorkOfOne(h: Held)
    ensures Work([h]) == WorkOf(h)
  {
    hide *;
    NoWork();
    WorkOfOneMore([], h);
    assert [] + [h] == [h];
  }

  lemma {:induction false} WorkAdds(a: seq<Held>, b: seq<Held>)
    ensures Work(a + b) == Work(a) + Work(b)
  {
    if b == [] {
      assert a + b == a;
    } else {
      var n := |b| - 1;
      WorkAdds(a, b[..n]);
      assert a + b == (a + b[..n]) + [b[n]];
      WorkOfOneMore(a + b[..n], b[n]);
    }
  }

  /** What the bake will merge: the tiles of the stream it asks for. */
  function Picked(job: Job, stream: seq<Held>): seq<Held> {
    if stream == [] then []
    else
      var rest, h := Picked(job, stream[..|stream| - 1]), stream[|stream| - 1];
      if job.Asked(h.id) then rest + [h] else rest
  }

  /** A shard is a piece of what is picked. */
  ghost predicate IsPiece(shard: Shard, i: int, piece: seq<Held>) {
    piece != [] && shard.index == i && shard.from == piece[0].id && shard.tiles == |piece| && shard.work == Work(piece)
  }

  /** Each shard is a piece of what is picked, and ends where the next begins. */
  ghost predicate Cuts(shards: seq<Shard>, pieces: seq<seq<Held>>) {
    && |shards| == |pieces|
    && (forall i :: 0 <= i < |pieces| ==> IsPiece(shards[i], i, pieces[i]))
    && (forall i, j :: 0 <= i && j == i + 1 < |shards| ==> shards[i].to == shards[j].from)
  }

  /** No piece is over its share unless it is one tile, and none could have taken the next one's first tile as well. */
  ghost predicate Fair(pieces: seq<seq<Held>>, share: nat) {
    && (forall i :: 0 <= i < |pieces| ==> pieces[i] != [] && (|pieces[i]| == 1 || Work(pieces[i]) <= share))
    && (forall i, j :: 0 <= i && j == i + 1 < |pieces| ==> share < Work(pieces[i]) + WorkOf(pieces[j][0]))
  }

  /** One more tile in the last piece. */
  function Added(pieces: seq<seq<Held>>, h: Held): seq<seq<Held>>
    requires pieces != []
  {
    pieces[..|pieces| - 1] + [pieces[|pieces| - 1] + [h]]
  }

  lemma AddingFlat(pieces: seq<seq<Held>>, h: Held)
    requires pieces != []
    ensures Flat(Added(pieces, h)) == Flat(pieces) + [h]
  {
    FlatOfOneMore(pieces[..|pieces| - 1], pieces[|pieces| - 1] + [h]);
  }

  lemma AddingIsFair(pieces: seq<seq<Held>>, h: Held, share: nat)
    requires pieces != [] && Fair(pieces, share) && Work(pieces[|pieces| - 1]) + WorkOf(h) <= share
    ensures Fair(Added(pieces, h), share)
  {
    WorkOfOneMore(pieces[|pieces| - 1], h);
  }

  lemma BeginningIsFair(pieces: seq<seq<Held>>, h: Held, share: nat)
    requires Fair(pieces, share) && (pieces != [] ==> share < Work(pieces[|pieces| - 1]) + WorkOf(h))
    ensures Fair(pieces + [[h]], share)
  {
  }

  /** A shard's worth of work: at least one tile's. */
  function ShareOf(tilesPerShard: real): (share: nat)
    ensures 1 <= share
  {
    if tilesPerShard.Floor < 1 then 1 else tilesPerShard.Floor
  }

  /** A shard that cannot take a tile is the last piece, and has at least one. */
  lemma LastIsFull(pieces: seq<seq<Held>>, h: Held, share: nat, shards: seq<Shard>)
    requires Cuts(shards, pieces)
    requires shards == [] || shards[|shards| - 1].work + WorkOf(h) > share
    ensures pieces != [] ==> share < Work(pieces[|pieces| - 1]) + WorkOf(h)
  {
  }

  lemma OneTileIsAPiece(h: Held, n: nat)
    ensures IsPiece(Shard(n, h.id, h.id, 1, WorkOf(h)), n, [h])
  {
    WorkOfOne(h);
    hide Work, WorkOf;
  }

  lemma ClosedStaysAPiece(shard: Shard, i: int, piece: seq<Held>, to: nat)
    requires IsPiece(shard, i, piece)
    ensures IsPiece(shard.(to := to), i, piece)
  {
    hide Work;
  }

  lemma BegunCuts(shards: seq<Shard>, pieces: seq<seq<Held>>, h: Held)
    requires Cuts(shards, pieces)
    ensures var n := |shards|;
            Cuts((if n > 0 then shards[n - 1 := shards[n - 1].(to := h.id)] else shards)
                 + [Shard(n, h.id, h.id, 1, WorkOf(h))], pieces + [[h]])
  {
    var n := |shards|;
    OneTileIsAPiece(h, n);
    if n > 0 {
      ClosedStaysAPiece(shards[n - 1], n - 1, pieces[n - 1], h.id);
    }
    hide IsPiece, WorkOf;
  }

  lemma BeginsNext(shards: seq<Shard>, pieces: seq<seq<Held>>, h: Held, share: nat)
    requires Cuts(shards, pieces) && Fair(pieces, share) &&
             (shards == [] || shards[|shards| - 1].work + WorkOf(h) > share)
    ensures var n := |shards|;
            Cuts((if n > 0 then shards[n - 1 := shards[n - 1].(to := h.id)] else shards)
                 + [Shard(n, h.id, h.id, 1, WorkOf(h))], pieces + [[h]])
    ensures Fair(pieces + [[h]], share) && Flat(pieces + [[h]]) == Flat(pieces) + [h]
  {
    hide *;
    BegunCuts(shards, pieces, h);
    LastIsFull(pieces, h, share, shards);
    BeginningIsFair(pieces, h, share);
    FlatOfOneMore(pieces, [h]);
  }

  lemma OneMoreIsAPiece(shard: Shard, i: int, piece: seq<Held>, h: Held)
    requires IsPiece(shard, i, piece)
    ensures IsPiece(shard.(tiles := shard.tiles + 1, work := shard.work + WorkOf(h)), i, piece + [h])
  {
    WorkOfOneMore(piece, h);
    hide Work, WorkOf;
  }

  lemma JoinedCuts(shards: seq<Shard>, pieces: seq<seq<Held>>, h: Held)
    requires Cuts(shards, pieces) && shards != []
    ensures pieces != [] && shards[|shards| - 1].work == Work(pieces[|shards| - 1]) && shards[|shards| - 1].tiles > 0
    ensures var n := |shards|;
            Cuts(shards[n - 1 := shards[n - 1].(tiles := shards[n - 1].tiles + 1,
                                                work := shards[n - 1].work + WorkOf(h))], Added(pieces, h))
  {
    var n := |shards|;
    assert IsPiece(shards[n - 1], n - 1, pieces[n - 1]);
    OneMoreIsAPiece(shards[n - 1], n - 1, pieces[n - 1], h);
    hide IsPiece, WorkOf;
  }

  lemma JoinsLast(shards: seq<Shard>, pieces: seq<seq<Held>>, h: Held, share: nat)
    requires Cuts(shards, pieces) && Fair(pieces, share) && shards != []
    requires shards[|shards| - 1].tiles > 0 ==> shards[|shards| - 1].work + WorkOf(h) <= share
    ensures pieces != []
    ensures var n := |shards|;
            Cuts(shards[n - 1 := shards[n - 1].(tiles := shards[n - 1].tiles + 1,
                                                work := shards[n - 1].work + WorkOf(h))], Added(pieces, h))
    ensures Fair(Added(pieces, h), share) && Flat(Added(pieces, h)) == Flat(pieces) + [h]
  {
    CutsInStep(shards, pieces);
    hide *;
    JoinedCuts(shards, pieces, h);
    AddingIsFair(pieces, h, share);
    AddingFlat(pieces, h);
  }

  lemma CutsInStep(shards: seq<Shard>, pieces: seq<seq<Held>>)
    requires Cuts(shards, pieces)
    ensures |shards| == |pieces|
  {
  }

  /** A tile goes to the shard being filled, or begins the next. */
  method Assign(shards: seq<Shard>, h: Held, share: nat, ghost pieces: seq<seq<Held>>)
    returns (after: seq<Shard>, ghost pieces': seq<seq<Held>>)
    requires Cuts(shards, pieces) && Fair(pieces, share)
    ensures Cuts(after, pieces') && Fair(pieces', share) && after != []
    ensures Flat(pieces') == Flat(pieces) + [h]
  {
    hide *;
    var work, n := WorkOf(h), |shards|;
    if n == 0 || (shards[n - 1].tiles > 0 && shards[n - 1].work + work > share) {
      BeginsNext(shards, pieces, h, share);
      pieces' := pieces + [[h]];
      var closed := if n > 0 then shards[n - 1 := shards[n - 1].(to := h.id)] else shards;
      after := closed + [Shard(n, h.id, h.id, 1, work)];
    } else {
      JoinsLast(shards, pieces, h, share);
      pieces' := Added(pieces, h);
      after := shards[n - 1 := shards[n - 1].(tiles := shards[n - 1].tiles + 1, work := shards[n - 1].work + work)];
    }
  }

  /**
   Cuts what a bake will merge into shards. The pieces put together are exactly
   what is picked of the stream, in order; they abut; and each is as big as its
   share of the work allows.
   */
  method PlanShards(job: Job, stream: seq<Held>, tilesPerShard: real)
    returns (shards: seq<Shard>, tiles: nat, ghost pieces: seq<seq<Held>>)
    requires Climbs(IdsIn(stream))
    ensures Flat(pieces) == Picked(job, stream) && tiles == |Picked(job, stream)|
    ensures Cuts(shards, pieces) && Fair(pieces, ShareOf(tilesPerShard))
    ensures forall i :: 0 <= i < |pieces| && |pieces[i]| > 1 ==> Work(pieces[i]) as real <= tilesPerShard
    ensures forall i, j :: 0 <= i && j == i + 1 < |pieces| ==>
              tilesPerShard < (Work(pieces[i]) + WorkOf(pieces[j][0])) as real
    ensures shards != [] ==> shards[|shards| - 1].to == LastId(Picked(job, stream)) + 1
  {
    var share := ShareOf(tilesPerShard);
    shards, tiles, pieces := [], 0, [];
    var lastId: int := -1;
    var i := 0;
    var past := false;
    while i < |stream| && !past
      invariant i <= |stream| && (past ==> i < |stream| && !job.to.Allows(stream[i].id))
      invariant Cuts(shards, pieces) && Fair(pieces, share)
      invariant Flat(pieces) == Picked(job, stream[..i]) && tiles == |Picked(job, stream[..i])|
      invariant lastId == LastId(Picked(job, stream[..i]))
      decreases |stream| - i, !past
    {
      var h := stream[i];
      if !job.to.Allows(h.id) {
        past := true;
      } else {
        assert stream[..i + 1][..i] == stream[..i];
        if job.Asked(h.id) {
          shards, pieces := Assign(shards, h, share, pieces);
          tiles := tiles + 1;
          lastId := h.id;
        }
        i := i + 1;
      }
    }
    NothingPickedPast(job, stream, i);
    if |shards| > 0 {
      shards := shards[|shards| - 1 := shards[|shards| - 1].(to := lastId + 1)];
    }
  }

  function LastId(tiles: seq<Held>): (last: int)
    ensures -1 <= last
  {
    if tiles == [] then -1 else tiles[|tiles| - 1].id
  }

  /** Past the end of what is asked for nothing is picked. */
  lemma {:induction false} NothingPickedPast(job: Job, stream: seq<Held>, i: nat)
    requires Climbs(IdsIn(stream)) && i <= |stream| && (i < |stream| ==> !job.to.Allows(stream[i].id))
    ensures Picked(job, stream) == Picked(job, stream[..i])
  {
    var n := |stream|;
    if i < n {
      assert IdsIn(stream)[i] <= IdsIn(stream)[n - 1];
      PrefixClimbs(stream);
      NothingPickedPast(job, stream[..n - 1], i);
      assert stream[..n - 1][..i] == stream[..i];
    } else {
      assert stream[..i] == stream;
    }
  }

  lemma PrefixClimbs(stream: seq<Held>)
    requires Climbs(IdsIn(stream)) && stream != []
    ensures Climbs(IdsIn(stream[..|stream| - 1]))
  {
    var n := |stream| - 1;
    assert IdsIn(stream)[..n] == IdsIn(stream[..n]);
    hide IdsIn;
    ClimbsBefore(IdsIn(stream), n);
  }

  lemma ClimbsBefore(ids: seq<nat>, n: nat)
    requires Climbs(ids) && n <= |ids|
    ensures Climbs(ids[..n])
  {
  }

  lemma {:induction false} PickedHas(job: Job, stream: seq<Held>, h: Held)
    ensures h in Picked(job, stream) <==> h in stream && job.Asked(h.id)
  {
    if stream != [] {
      var n := |stream| - 1;
      PickedHas(job, stream[..n], h);
      assert stream == stream[..n] + [stream[n]];
    }
  }

  lemma ClimbsAt(ids: seq<nat>, i: nat, j: nat)
    requires Climbs(ids) && i < j < |ids|
    ensures ids[i] < ids[j]
  {
  }

  lemma {:induction false} PickedFrom(job: Job, stream: seq<Held>, i: nat) returns (k: nat)
    requires i < |Picked(job, stream)|
    ensures k < |stream| && Picked(job, stream)[i] == stream[k]
  {
    var n := |stream| - 1;
    if i < |Picked(job, stream[..n])| {
      k := PickedFrom(job, stream[..n], i);
    } else {
      k := n;
    }
  }

  lemma {:induction false} PickedClimbs(job: Job, stream: seq<Held>)
    requires Climbs(IdsIn(stream))
    ensures Climbs(IdsIn(Picked(job, stream)))
  {
    if stream != [] {
      var n := |stream| - 1;
      PrefixClimbs(stream);
      PickedClimbs(job, stream[..n]);
      var picked := Picked(job, stream[..n]);
      forall i | 0 <= i < |picked|
        ensures picked[i].id < stream[n].id
      {
        var k := PickedFrom(job, stream[..n], i);
        ClimbsAt(IdsIn(stream), k, n);
      }
    }
  }

  /** Where a piece begins in all the pieces put together. */
  ghost function Start(pieces: seq<seq<Held>>, i: nat): nat
    requires i <= |pieces|
  {
    |Flat(pieces[..i])|
  }

  lemma {:induction false} PieceIsThere(pieces: seq<seq<Held>>, i: nat)
    requires i < |pieces|
    ensures Start(pieces, i) + |pieces[i]| == Start(pieces, i + 1) <= |Flat(pieces)|
    ensures Flat(pieces)[Start(pieces, i)..Start(pieces, i + 1)] == pieces[i]
    decreases |pieces|
  {
    var n := |pieces| - 1;
    assert pieces[..i + 1][..i] == pieces[..i];
    if i == n {
      assert pieces[..n + 1] == pieces;
    } else {
      PieceIsThere(pieces[..n], i);
      assert pieces[..n][..i] == pieces[..i] && pieces[..n][..i + 1] == pieces[..i + 1];
      assert Flat(pieces) == Flat(pieces[..n]) + pieces[n];
    }
  }

  lemma {:induction false} StartsAscend(pieces: seq<seq<Held>>, i: nat, j: nat)
    requires i <= j <= |pieces|
    ensures Start(pieces, i) <= Start(pieces, j)
  {
    if i < j {
      StartsAscend(pieces, i, j - 1);
      PieceIsThere(pieces, j - 1);
    }
  }

  /** The plan of a bake: shards cut from what is picked, the last ending just past its last tile. */
  ghost predicate IsPlan(shards: seq<Shard>, pieces: seq<seq<Held>>, picked: seq<Held>) {
    && Cuts(shards, pieces) && Flat(pieces) == picked && Climbs(IdsIn(picked))
    && (shards != [] ==> shards[|shards| - 1].to == LastId(picked) + 1)
  }

  /** A shard begins with the first tile of its piece, and ends with the first of the next. */
  lemma ShardEnds(shards: seq<Shard>, pieces: seq<seq<Held>>, picked: seq<Held>, i: nat)
    requires IsPlan(shards, pieces, picked) && i < |shards|
    ensures Start(pieces, i) < Start(pieces, i + 1) <= |picked|
    ensures shards[i].from == picked[Start(pieces, i)].id
    ensures shards[i].to ==
            if Start(pieces, i + 1) < |picked| then picked[Start(pieces, i + 1)].id else LastId(picked) + 1
  {
    hide IdsIn, Work;
    PieceIsThere(pieces, i);
    assert pieces[i] != [] && pieces[i][0] == picked[Start(pieces, i)];
    if i + 1 < |pieces| {
      PieceIsThere(pieces, i + 1);
      assert pieces[i + 1] != [] && pieces[i + 1][0] == picked[Start(pieces, i + 1)];
    } else {
      assert pieces[..i + 1] == pieces;
    }
  }

  /** A shard's run of ids holds its own piece of what is picked and nothing else of it. */
  lemma ShardHasItsPiece(shards: seq<Shard>, pieces: seq<seq<Held>>, picked: seq<Held>, i: nat, k: nat)
    requires IsPlan(shards, pieces, picked) && i < |shards| && k < |picked|
    ensures shards[i].from < shards[i].to
    ensures shards[i].Has(picked[k].id) <==> Start(pieces, i) <= k < Start(pieces, i + 1)
  {
    ShardEnds(shards, pieces, picked, i);
    var a, b, n := Start(pieces, i), Start(pieces, i + 1), |picked| - 1;
    var ids := IdsIn(picked);
    assert ids[a] == picked[a].id && ids[k] == picked[k].id && ids[n] == picked[n].id;
    if b < |picked| {
      assert ids[b] == picked[b].id;
    }
    hide Start, Cuts;
  }

  lemma {:induction false} SomePieceHas(pieces: seq<seq<Held>>, k: nat) returns (i: nat)
    requires k < |Flat(pieces)|
    ensures i < |pieces| && Start(pieces, i) <= k < Start(pieces, i + 1)
  {
    var n := |pieces| - 1;
    PieceIsThere(pieces, n);
    assert pieces[..n + 1] == pieces;
    if Start(pieces, n) <= k {
      i := n;
    } else {
      i := SomePieceHas(pieces[..n], k);
      assert pieces[..n][..i] == pieces[..i] && pieces[..n][..i + 1] == pieces[..i + 1];
    }
  }

  /** Every tile picked falls in exactly one shard. */
  lemma EachTileInOneShard(shards: seq<Shard>, pieces: seq<seq<Held>>, picked: seq<Held>, k: nat) returns (i: nat)
    requires IsPlan(shards, pieces, picked) && k < |picked|
    ensures i < |shards| && shards[i].Has(picked[k].id)
    ensures forall j :: 0 <= j < |shards| && shards[j].Has(picked[k].id) ==> j == i
  {
    i := SomePieceHas(pieces, k);
    ShardHasItsPiece(shards, pieces, picked, i, k);
    forall j | 0 <= j < |shards| && shards[j].Has(picked[k].id)
      ensures j == i
    {
      ShardHasItsPiece(shards, pieces, picked, j, k);
      if j < i {
        StartsAscend(pieces, j + 1, i);
      } else if i < j {
        StartsAscend(pieces, i + 1, j);
      }
    }
  }

  function TotalTiles(shards: seq<Shard>): nat {
    if shards == [] then 0 else TotalTiles(shards[..|shards| - 1]) + shards[|shards| - 1].tiles
  }

  function TotalWork(shards: seq<Shard>): nat {
    if shards == [] then 0 else TotalWork(shards[..|shards| - 1]) + shards[|shards| - 1].work
  }

  lemma CutsBefore(shards: seq<Shard>, pieces: seq<seq<Held>>)
    requires Cuts(shards, pieces) && shards != []
    ensures var n := |shards| - 1;
            |pieces| == n + 1 && Cuts(shards[..n], pieces[..n]) && shards[n].tiles == |pieces[n]| &&
              shards[n].work == Work(pieces[n])
  {
    assert IsPiece(shards[|shards| - 1], |shards| - 1, pieces[|shards| - 1]);
    hide Work;
  }

  /** Nothing is lost in the cutting: the shards' tiles and work add up to what was picked. */
  lemma {:induction false} CuttingConserves(shards: seq<Shard>, pieces: seq<seq<Held>>)
    requires Cuts(shards, pieces)
    ensures TotalTiles(shards) == |Flat(pieces)| && TotalWork(shards) == Work(Flat(pieces))
  {
    if shards != [] {
      var n := |shards| - 1;
      CutsBefore(shards, pieces);
      hide Cuts, Work;
      CuttingConserves(shards[..n], pieces[..n]);
      WorkAdds(Flat(pieces[..n]), pieces[n]);
    }
  }

  lemma LastTwo(pieces: seq<seq<Held>>)
    requires |pieces| >= 2
    ensures var n := |pieces|;
            Work(Flat(pieces)) == Work(Flat(pieces[..n - 2])) + Work(pieces[n - 2]) + Work(pieces[n - 1])
  {
    var n := |pieces|;
    var rest, a, b := pieces[..n - 2], pieces[n - 2], pieces[n - 1];
    assert pieces[..n - 1][..n - 2] == rest;
    assert Flat(pieces[..n - 1]) == Flat(rest) + a;
    WorkAdds(Flat(rest), a);
    WorkAdds(Flat(pieces[..n - 1]), b);
  }

  lemma PairMore(n: nat, share: nat, before: nat, after: nat)
    requires n >= 2 && (n - 2) / 2 * share <= before && before + share <= after
    ensures n / 2 * share <= after
  {
    var k := (n - 2) / 2;
    assert n / 2 == k + 1;
    assert (k + 1) * share == k * share + share;
  }

  lemma NeighboursAreFair(pieces: seq<seq<Held>>, share: nat)
    requires Fair(pieces, share) && |pieces| >= 2
    ensures var n := |pieces|;
            pieces[n - 1] != [] && share < Work(pieces[n - 2]) + WorkOf(pieces[n - 1][0]) &&
              Fair(pieces[..n - 2], share)
  {
    hide Work, WorkOf;
  }

  /** Any two neighbours together exceed one share, so every two pieces hold a share's work. */
  lemma {:induction false} PairsHoldAShare(pieces: seq<seq<Held>>, share: nat)
    requires Fair(pieces, share)
    ensures |pieces| / 2 * share <= Work(Flat(pieces))
  {
    var n := |pieces|;
    if n >= 2 {
      hide *;
      NeighboursAreFair(pieces, share);
      PairsHoldAShare(pieces[..n - 2], share);
      LastTwo(pieces);
      FirstIsPartOfWork(pieces[n - 1]);
      PairMore(n, share, Work(Flat(pieces[..n - 2])), Work(Flat(pieces)));
    } else {
      assert n / 2 * share == 0;
    }
  }

  lemma {:induction false} FirstIsPartOfWork(tiles: seq<Held>)
    requires tiles != []
    ensures WorkOf(tiles[0]) <= Work(tiles)
  {
    if |tiles| > 1 {
      FirstIsPartOfWork(tiles[..|tiles| - 1]);
    } else {
      assert tiles[..0] == [];
    }
  }

  /** No more shards than twice the work is worth, and one. */
  lemma FewShards(shards: seq<Shard>, pieces: seq<seq<Held>>, share: nat)
    requires Cuts(shards, pieces) && Fair(pieces, share)
    ensures (|shards| - 1) * share <= 2 * TotalWork(shards)
  {
    CuttingConserves(shards, pieces);
    PairsHoldAShare(pieces, share);
    hide *;
    HalvesAreNearlyAll(|shards|, share);
  }

  lemma HalvesAreNearlyAll(n: nat, share: nat)
    ensures (n - 1) * share <= 2 * (n / 2 * share)
  {
    var k := n / 2;
    if n == 2 * k {
      assert (2 * k - 1) * share == 2 * (k * share) - share;
    } else {
      assert 2 * k * share == 2 * (k * share);
    }
  }

  lemma PiecesFromSecond(pieces: seq<seq<Held>>, share: nat)
    requires pieces != [] && Fair(pieces, share)
    ensures Fair(pieces[1..], share) && Flat(pieces) == pieces[0] + Flat(pieces[1..])
  {
    FlatFromFront(pieces);
  }

  lemma {:induction false} PrefixWorksLess(a: seq<Held>, k: nat)
    requires k < |a|
    ensures Work(a[..k]) + WorkOf(a[k]) <= Work(a)
  {
    if k == |a| - 1 {
    } else {
      var n := |a| - 1;
      PrefixWorksLess(a[..n], k);
      assert a[..n][..k] == a[..k];
    }
  }

  /** A first piece is never longer than another: it would be over its share. */
  lemma FirstIsNoLonger(p: seq<seq<Held>>, q: seq<seq<Held>>, share: nat)
    requires p != [] && q != [] && Fair(p, share) && Fair(q, share) && Flat(p) == Flat(q)
    ensures |q[0]| <= |p[0]|
  {
    PiecesFromSecond(p, share);
    PiecesFromSecond(q, share);
    var k := |p[0]|;
    var n := |q[0]|;
    assert Flat(p)[..k] == p[0] && Flat(q)[..n] == q[0];
    if k < n {
      assert q[0][..k] == Flat(p)[..k];
      SecondBegins(p, share);
      assert q[0][k] == Flat(p)[k];
      PrefixWorksLess(q[0], k);
    }
  }

  lemma SecondBegins(p: seq<seq<Held>>, share: nat)
    requires p != [] && Fair(p, share) && |p[0]| < |Flat(p)|
    ensures |p| > 1 && Flat(p)[|p[0]|] == p[1][0] && share < Work(p[0]) + WorkOf(p[1][0])
  {
    PiecesFromSecond(p, share);
    assert p[1..] != [];
    PiecesFromSecond(p[1..], share);
  }

  /** There is one fair way to cut: planning the same bake again cuts it the same. */
  lemma {:induction false} CutIsUnique(p: seq<seq<Held>>, q: seq<seq<Held>>, share: nat)
    requires Fair(p, share) && Fair(q, share) && Flat(p) == Flat(q)
    ensures p == q
    decreases |p|
  {
    if p != [] && q != [] {
      FirstIsNoLonger(p, q, share);
      FirstIsNoLonger(q, p, share);
      PiecesFromSecond(p, share);
      PiecesFromSecond(q, share);
      hide Fair, Flat;
      var k := |p[0]|;
      assert Flat(p)[..k] == p[0] && Flat(q)[..k] == q[0];
      assert Flat(p)[k..] == Flat(p[1..]) && Flat(q)[k..] == Flat(q[1..]);
      CutIsUnique(p[1..], q[1..], share);
      assert p == [p[0]] + p[1..] && q == [q[0]] + q[1..];
    } else if p != [] {
      PiecesFromSecond(p, share);
    } else if q != [] {
      PiecesFromSecond(q, share);
    }
  }

  /** So a bake has one plan. */
  lemma PlanIsUnique(a: seq<Shard>, b: seq<Shard>, p: seq<seq<Held>>, q: seq<seq<Held>>, picked: seq<Held>, share: nat)
    requires IsPlan(a, p, picked) && IsPlan(b, q, picked) && Fair(p, share) && Fair(q, share)
    ensures a == b
  {
    CutIsUnique(p, q, share);
    forall i | 0 <= i < |a|
      ensures a[i] == b[i]
    {
      ShardEnds(a, p, picked, i);
      ShardEnds(b, q, picked, i);
    }
  }
}
