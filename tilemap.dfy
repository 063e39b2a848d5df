/** The tile layer built by `startup`: a 256 x 256 grid of tile entities,
    each holding its own grid position and a texture index drawn from 0..14,
    and a `TileStorage` table that maps every grid position to its entity. */
module Tilemap {

  datatype Option<T> = None | Some(value: T)

  /** Entities are identified by the order in which they were spawned. */
  type Entity = nat

  datatype TilemapSize = TilemapSize(x: nat, y: nat)

  datatype TilePos = TilePos(x: nat, y: nat)

  /** The components of a spawned `TileBundle` that the model keeps. */
  datatype Tile = Tile(position: TilePos, tilemapId: Entity, textureIndex: nat)

  const MapSize: TilemapSize := TilemapSize(256, 256)

  /** Texture indices are drawn from the half-open range [0, TextureCount). */
  const TextureCount: nat := 14

  predicate InBounds(size: TilemapSize, pos: TilePos) {
    pos.x < size.x && pos.y < size.y
  }

  /** Number of cells of a grid. */
  function CellCount(size: TilemapSize): nat {
    size.x * size.y
  }

  /** Position of a cell in the visiting order of the nested loops
      `for x { for y { ... } }`: the outer loop runs over x. */
  function CellIndex(size: TilemapSize, pos: TilePos): nat {
    pos.x * size.y + pos.y
  }

  /** The cell visited k-th by the nested loops. */
  function VisitOrder(size: TilemapSize, k: nat): (pos: TilePos)
    requires k < CellCount(size)
    ensures InBounds(size, pos)
    ensures CellIndex(size, pos) == k
  {
    QuotientBound(k, size.x, size.y);
    TilePos(k / size.y, k % size.y)
  }

  /** If k < w * h then k / h < w. */
  lemma QuotientBound(k: nat, w: nat, h: nat)
    requires k < w * h
    ensures h > 0 && k / h < w
  {
  }

  lemma MulMonotone(a: nat, b: nat, h: nat)
    requires a <= b
    ensures a * h <= b * h
  {
  }

  /** Euclidean division recovers the row and column of x * h + y. */
  lemma {:induction false} DivModOfCell(x: nat, y: nat, h: nat)
    requires y < h
    ensures (x * h + y) / h == x && (x * h + y) % h == y
  {
    var k := x * h + y;
    var q, r := k / h, k % h;
    assert q * h + r == x * h + y;
    if q > x {
      MulMonotone(x + 1, q, h);
      assert false;
    } else if q < x {
      MulMonotone(q + 1, x, h);
      assert false;
    }
  }

  /** Every cell has an index below CellCount, and that index leads back to it. */
  lemma {:induction false} VisitOrderOfCell(size: TilemapSize, pos: TilePos)
    requires InBounds(size, pos)
    ensures CellIndex(size, pos) < CellCount(size)
    ensures VisitOrder(size, CellIndex(size, pos)) == pos
  {
    MulMonotone(pos.x + 1, size.x, size.y);
    DivModOfCell(pos.x, pos.y, size.y);
  }

  /** The nested loops visit every cell of the grid exactly once: the
      visiting order is a bijection between [0, CellCount) and the cells. */
  lemma {:induction false} VisitsEachCellOnce(size: TilemapSize, pos: TilePos, k: nat)
    requires InBounds(size, pos) && k < CellCount(size)
    ensures VisitOrder(size, k) == pos <==> k == CellIndex(size, pos)
  {
    VisitOrderOfCell(size, pos);
  }

  /** The ECS command queue, reduced to the entities it spawns: entity `e`
      holds the tile components `spawned[e]`, or `None` when it was spawned
      empty. */
  class Commands {
    var spawned: seq<Option<Tile>>

    constructor ()
      ensures spawned == []
    {
      spawned := [];
    }

    method SpawnEmpty() returns (e: Entity)
      modifies this
      ensures e == |old(spawned)|
      ensures spawned == old(spawned) + [None]
    {
      e := |spawned|;
      spawned := spawned + [None];
    }

    method SpawnTile(tile: Tile) returns (e: Entity)
      modifies this
      ensures e == |old(spawned)|
      ensures spawned == old(spawned) + [Some(tile)]
    {
      e := |spawned|;
      spawned := spawned + [Some(tile)];
    }
  }

  /** A dense table from grid position to the tile entity stored there. */
  class TileStorage {
    const size: TilemapSize
    const tiles: array2<Option<Entity>>

    ghost predicate Valid()
      reads this
    {
      tiles.Length0 == size.x && tiles.Length1 == size.y
    }

    /** The entity stored at `pos`, `None` for an empty or out-of-range cell. */
    function At(pos: TilePos): Option<Entity>
      reads this, tiles
      requires Valid()
    {
      if InBounds(size, pos) then tiles[pos.x, pos.y] else None
    }

    /** `TileStorage::empty`: every cell is empty. */
    constructor Empty(size: TilemapSize)
      ensures Valid() && this.size == size && fresh(tiles)
      ensures forall pos :: At(pos) == None
    {
      this.size := size;
      tiles := new Option<Entity>[size.x, size.y]((i, j) => None);
    }

    /** `TileStorage::set`: stores `e` at `pos` and changes no other cell. */
    method Set(pos: TilePos, e: Entity)
      requires Valid() && InBounds(size, pos)
      modifies tiles
      ensures At(pos) == Some(e)
      ensures forall p :: p != pos ==> At(p) == old(At(p))
    {
      tiles[pos.x, pos.y] := Some(e);
    }
  }

  /** Every draw of the random source lies in [0, TextureCount), as
      `gen_range(0..14)` promises. */
  predicate ValidDraws(size: TilemapSize, draws: seq<nat>) {
    |draws| == CellCount(size) && forall k :: 0 <= k < |draws| ==> draws[k] < TextureCount
  }

  /** The tile spawned k-th by the grid fill. */
  function SpawnedTile(size: TilemapSize, tilemap: Entity, draws: seq<nat>, k: nat): (t: Tile)
    requires ValidDraws(size, draws) && k < CellCount(size)
    ensures InBounds(size, t.position) && t.textureIndex < TextureCount
  {
    Tile(VisitOrder(size, k), tilemap, draws[k])
  }

  /** The grid fill is complete: from entity `first` on, the k-th spawned
      entity is the k-th tile, and every cell stores the entity spawned for
      it. */
  ghost predicate Filled(commands: Commands, storage: TileStorage, tilemap: Entity,
                         draws: seq<nat>, first: nat)
    reads commands, storage, storage.tiles
    requires storage.Valid() && ValidDraws(storage.size, draws)
  {
    var size := storage.size;
    |commands.spawned| == first + CellCount(size) &&
    (forall k :: 0 <= k < CellCount(size) ==>
      commands.spawned[first + k] == Some(SpawnedTile(size, tilemap, draws, k))) &&
    (forall pos :: InBounds(size, pos) ==> storage.At(pos) == Some(first + CellIndex(size, pos)))
  }

  /** Cell `pos` stores an entity that was spawned from `first` on as a tile
      of `tilemap` carrying the position `pos` and a texture index below
      TextureCount. */
  ghost predicate StoresOwnTile(commands: Commands, storage: TileStorage, tilemap: Entity,
                                first: nat, pos: TilePos)
    reads commands, storage, storage.tiles
    requires storage.Valid()
  {
    match storage.At(pos)
    case None => false
    case Some(e) =>
      first <= e < |commands.spawned| &&
      match commands.spawned[e]
      case None => false
      case Some(t) => t.position == pos && t.tilemapId == tilemap && t.textureIndex < TextureCount
  }

  /** After the fill, every cell of the grid holds exactly the tile made for it. */
  lemma {:induction false} FilledCellsHoldOwnTile(commands: Commands, storage: TileStorage,
                                                  tilemap: Entity, draws: seq<nat>, first: nat)
    requires storage.Valid() && ValidDraws(storage.size, draws)
    requires Filled(commands, storage, tilemap, draws, first)
    ensures forall pos :: InBounds(storage.size, pos) ==>
      StoresOwnTile(commands, storage, tilemap, first, pos)
  {
    var size := storage.size;
    forall pos | InBounds(size, pos)
      ensures StoresOwnTile(commands, storage, tilemap, first, pos)
    {
      var k := CellIndex(size, pos);
      VisitOrderOfCell(size, pos);
      assert storage.At(pos) == Some(first + k);
      assert commands.spawned[first + k] == Some(SpawnedTile(size, tilemap, draws, k));
    }
  }

  /** After the fill, every entity spawned by it is a tile stored at its own
      position, so no cell holds two tiles and no tile is lost. */
  lemma {:induction false} FilledTilesAreStored(commands: Commands, storage: TileStorage,
                                                tilemap: Entity, draws: seq<nat>, first: nat)
    requires storage.Valid() && ValidDraws(storage.size, draws)
    requires Filled(commands, storage, tilemap, draws, first)
    ensures forall e :: first <= e < |commands.spawned| ==>
      commands.spawned[e].Some? && storage.At(commands.spawned[e].value.position) == Some(e)
  {
    var size := storage.size;
    forall e | first <= e < |commands.spawned|
      ensures commands.spawned[e].Some? && storage.At(commands.spawned[e].value.position) == Some(e)
    {
      var k := e - first;
      assert commands.spawned[first + k] == Some(SpawnedTile(size, tilemap, draws, k));
    }
  }

  /** The fill is determined by the draws: two fills of grids of the same
      size from the same draws spawn the same tiles and store the same
      entities. */
  lemma {:induction false} FillIsDeterministic(c1: Commands, s1: TileStorage, c2: Commands, s2: TileStorage,
                                               tilemap: Entity, draws: seq<nat>, first: nat)
    requires s1.Valid() && s2.Valid() && s1.size == s2.size && ValidDraws(s1.size, draws)
    requires Filled(c1, s1, tilemap, draws, first) && Filled(c2, s2, tilemap, draws, first)
    ensures c1.spawned[first..] == c2.spawned[first..]
    ensures forall pos :: s1.At(pos) == s2.At(pos)
  {
    var size := s1.size;
    forall k | 0 <= k < CellCount(size)
      ensures c1.spawned[first..][k] == c2.spawned[first..][k]
    {
      assert c1.spawned[first + k] == Some(SpawnedTile(size, tilemap, draws, k));
      assert c2.spawned[first + k] == Some(SpawnedTile(size, tilemap, draws, k));
    }
  }

  /** The nested loop of `startup`: for every x, for every y, spawn a tile
      at (x, y) with the next random texture index and store it there. */
  method FillTiles(commands: Commands, storage: TileStorage, tilemap: Entity, draws: seq<nat>)
    requires storage.Valid() && ValidDraws(storage.size, draws)
    modifies commands, storage.tiles
    ensures Filled(commands, storage, tilemap, draws, |old(commands.spawned)|)
    ensures commands.spawned[..|old(commands.spawned)|] == old(commands.spawned)
  {
    var size := storage.size;
    ghost var first := |commands.spawned|;
    ghost var before := commands.spawned;
    var x := 0;
    while x < size.x
      invariant x <= size.x
      invariant |commands.spawned| == first + x * size.y
      invariant commands.spawned[..first] == before
      invariant forall k :: 0 <= k < x * size.y ==>
        commands.spawned[first + k] == Some(SpawnedTile(size, tilemap, draws, k))
      invariant forall pos :: InBounds(size, pos) && pos.x < x ==>
        storage.At(pos) == Some(first + CellIndex(size, pos))
    {
      MulMonotone(x + 1, size.x, size.y);
      var y := 0;
      while y < size.y
        invariant y <= size.y
        invariant |commands.spawned| == first + x * size.y + y
        invariant commands.spawned[..first] == before
        invariant forall k :: 0 <= k < x * size.y + y ==>
          commands.spawned[first + k] == Some(SpawnedTile(size, tilemap, draws, k))
        invariant forall pos :: InBounds(size, pos) && (pos.x < x || (pos.x == x && pos.y < y)) ==>
          storage.At(pos) == Some(first + CellIndex(size, pos))
      {
        var tilePos := TilePos(x, y);
        var k := x * size.y + y;
        DivModOfCell(x, y, size.y);
        assert VisitOrder(size, k) == tilePos;
        var e := commands.SpawnTile(Tile(tilePos, tilemap, draws[k]));
        storage.Set(tilePos, e);
        y := y + 1;
      }
      x := x + 1;
    }
  }
}
