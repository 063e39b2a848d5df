/** The `startup` system: it spawns the tilemap entity, fills the 256 x 256
    tile grid with random textures, and spawns the player sprite. */
module Game {
  import opened Tilemap
  import opened Movement

  /** `startup`, with the random source given as `draws`: the k-th draw is
      the texture index of the k-th tile visited. */
  method Startup(draws: seq<nat>)
    returns (commands: Commands, tilemap: Entity, storage: TileStorage, player: Player)
    requires ValidDraws(MapSize, draws)
    ensures fresh(commands) && fresh(storage) && fresh(storage.tiles) && fresh(player)
    ensures storage.Valid() && storage.size == MapSize
    ensures tilemap == 0 && |commands.spawned| == 1 + CellCount(MapSize)
    ensures commands.spawned[tilemap] == None
    ensures Filled(commands, storage, tilemap, draws, tilemap + 1)
    ensures forall pos :: InBounds(MapSize, pos) ==> StoresOwnTile(commands, storage, tilemap, tilemap + 1, pos)
    ensures player.index == 0 && player.translation == Vec3(0.0, 0.0, 1.0)
  {
    commands := new Commands();
    tilemap := commands.SpawnEmpty();
    storage := new TileStorage.Empty(MapSize);
    FillTiles(commands, storage, tilemap, draws);
    assert commands.spawned[tilemap] == commands.spawned[..tilemap + 1][tilemap];
    FilledCellsHoldOwnTile(commands, storage, tilemap, draws, tilemap + 1);
    player := new Player.Spawn();
  }
}
