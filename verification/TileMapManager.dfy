// The tile map manager: tilesets and tile maps by name, and the map that is
// currently active. Ownership is not modelled: where the engine destroys a
// tileset or a map that is replaced under its name, the model keeps the
// object, and a pointer to it (the current map, a map's tileset) keeps
// referring to the replaced object, as it does in the engine.

module TileMapManagement {
  import opened Common
  import opened Objects
  import opened Tilesets
  import opened TileMaps

  /** The names of a map's keys, each once, in the map's iteration order
      (which the model leaves open). */
  method KeyNames<V>(m: map<string, V>) returns (names: seq<string>)
    ensures forall n :: n in names <==> n in m
    ensures |names| == |m.Keys|
    ensures forall i, j :: 0 <= i < j < |names| ==> names[i] != names[j]
  {
    names := [];
    var remaining := m.Keys;
    while remaining != {}
      invariant remaining <= m.Keys
      invariant forall n :: n in names <==> n in m && n !in remaining
      invariant |names| + |remaining| == |m.Keys|
      invariant forall i, j :: 0 <= i < j < |names| ==> names[i] != names[j]
      decreases remaining
    {
      var n :| n in remaining;
      names := names + [n];
      remaining := remaining - {n};
    }
  }

  class TileMapManager {
    var tilesets: map<string, Tileset>
    var tileMaps: map<string, TileMap>
    var currentMap: TileMap?

    /** Every stored map and the current map are well formed. */
    ghost predicate Valid()
      reads this, tileMaps.Values, currentMap
    {
      && (forall n :: n in tileMaps ==> tileMaps[n].Valid())
      && (currentMap != null ==> currentMap.Valid())
    }

    /** TileMapManager(): nothing loaded and no current map. */
    constructor ()
      ensures Valid()
      ensures tilesets == map[] && tileMaps == map[] && currentMap == null
    {
      tilesets := map[];
      tileMaps := map[];
      currentMap := null;
    }

    /** loadTileset: always succeeds, storing a new empty tileset with the
        given name under that name (replacing any tileset stored there);
        the image path and the tile size are not used. */
    method LoadTileset(name: string, imagePath: string, tileWidth: int, tileHeight: int) returns (ok: bool)
      modifies this`tilesets
      ensures ok
      ensures name in tilesets && fresh(tilesets[name]) && tilesets == old(tilesets)[name := tilesets[name]]
      ensures tilesets[name].Valid() && tilesets[name].tiles == [] && tilesets[name].tileMap == map[]
      ensures tilesets[name].name == name
    {
      var tileset := new Tileset();
      tileset.SetName(name);
      tilesets := tilesets[name := tileset];
      return true;
    }

    /** loadGrassTileset: a new tileset loaded with the grass tiles is
        stored under "grass"; as loading the grass tileset always reports
        success, so does this. */
    method LoadGrassTileset(resourcesPath: string, disk: Disk) returns (ok: bool)
      modifies this`tilesets
      ensures ok
      ensures "grass" in tilesets && fresh(tilesets["grass"]) && tilesets == old(tilesets)["grass" := tilesets["grass"]]
      ensures tilesets["grass"].Valid() && tilesets["grass"].AllWalkable()
      ensures tilesets["grass"].tileMap.Keys == IdsOf(LoadedRows(GrassTiles, resourcesPath, disk))
    {
      var tileset := new Tileset();
      var loaded := tileset.LoadGrassTileset(resourcesPath, disk);
      if !loaded {
        return false;
      }
      tilesets := tilesets["grass" := tileset];
      return true;
    }

    /** getTileset: the tileset stored under the name, null for an unknown
        name. */
    function GetTileset(name: string): (t: Tileset?)
      reads this
      ensures t == null <==> name !in tilesets
      ensures t != null ==> t == tilesets[name]
    {
      if name in tilesets then tilesets[name] else null
    }

    /** createTileMap: with no tileset of the given name, nothing is stored
        and null is returned. Otherwise a new map of the given size over
        that tileset, all zeros and named `name`, is stored under `name`
        (replacing any map stored there) and returned. */
    method CreateTileMap(name: string, width: int, height: int, tilesetName: string) returns (m: TileMap?)
      requires Valid()
      requires tilesetName in tilesets ==> height >= 0 && (height > 0 ==> width >= 0)
      modifies this`tileMaps
      ensures Valid()
      ensures m == null <==> tilesetName !in old(tilesets)
      ensures m == null ==> tileMaps == old(tileMaps)
      ensures m != null ==>
        && fresh(m) && tileMaps == old(tileMaps)[name := m]
        && m.name == name && m.tileset == tilesets[tilesetName]
        && m.mapWidth == width && m.mapHeight == height && m.Valid()
        && forall x, y :: m.IsValidCoordinate(x, y) ==> m.GetTile(x, y) == 0
    {
      var tileset := GetTileset(tilesetName);
      if tileset == null {
        return null;
      }
      m := new TileMap(width, height, tileset);
      m.SetName(name);
      tileMaps := tileMaps[name := m];
    }

    /** getTileMap: the map stored under the name, null for an unknown
        name. */
    function GetTileMap(name: string): (m: TileMap?)
      reads this
      ensures m == null <==> name !in tileMaps
      ensures m != null ==> m == tileMaps[name]
    {
      if name in tileMaps then tileMaps[name] else null
    }

    /** setCurrentMap: an unknown name is refused and the current map is
        kept; a known name makes its map current. */
    method SetCurrentMap(name: string) returns (ok: bool)
      requires Valid()
      modifies this`currentMap
      ensures Valid()
      ensures ok <==> name in tileMaps
      ensures ok ==> currentMap == tileMaps[name]
      ensures !ok ==> currentMap == old(currentMap)
    {
      var m := GetTileMap(name);
      if m == null {
        return false;
      }
      currentMap := m;
      return true;
    }

    /** createDefaultGrassMap: the grass tileset is loaded if it is not
        there yet, a map of the given size over it is stored under the
        name, and it becomes the current map only when there is none. The
        random terrain the engine then paints is not modelled. */
    method CreateDefaultGrassMap(mapName: string, width: int, height: int, resourcesPath: string, disk: Disk)
      returns (ok: bool)
      requires Valid()
      requires height >= 0 && (height > 0 ==> width >= 0)
      modifies this`tilesets, this`tileMaps, this`currentMap
      ensures Valid()
      ensures ok
      ensures "grass" in tilesets
      ensures "grass" in old(tilesets) ==> tilesets == old(tilesets)
      ensures mapName in tileMaps && fresh(tileMaps[mapName])
      ensures tileMaps == old(tileMaps)[mapName := tileMaps[mapName]]
      ensures tileMaps[mapName].tileset == tilesets["grass"]
      ensures tileMaps[mapName].mapWidth == width && tileMaps[mapName].mapHeight == height
      ensures currentMap == if old(currentMap) == null then tileMaps[mapName] else old(currentMap)
    {
      if GetTileset("grass") == null {
        var loaded := LoadGrassTileset(resourcesPath, disk);
        if !loaded {
          return false;
        }
      }
      var m := CreateTileMap(mapName, width, height, "grass");
      if m == null {
        return false;
      }
      if currentMap == null {
        currentMap := m;
      }
      return true;
    }

    /** isPositionBlocked: false without a current map; otherwise whether
        the current map is blocked at the position. */
    predicate IsPositionBlocked(worldPos: Vec2)
      requires currentMap != null ==> currentMap.Valid()
      reads this, currentMap, if currentMap == null then {} else {currentMap.tileset}
      reads if currentMap == null || currentMap.tileset == null then {} else currentMap.tileset.tileMap.Values
      ensures IsPositionBlocked(worldPos) ==> currentMap != null && currentMap.tileset != null
    {
      currentMap != null && currentMap.IsPositionBlocked(worldPos)
    }

    /** isTileSolid: false without a current map; otherwise whether the
        tile of the current map under the position is solid. */
    predicate IsTileSolid(worldPos: Vec2)
      requires currentMap != null ==> currentMap.Valid()
      reads this, currentMap, if currentMap == null then {} else {currentMap.tileset}
      reads if currentMap == null || currentMap.tileset == null then {} else currentMap.tileset.tileMap.Values
      ensures IsTileSolid(worldPos) ==> currentMap != null && currentMap.tileset != null
    {
      if currentMap == null then false
      else
        var p := currentMap.WorldToTilePosition(worldPos);
        currentMap.IsTileSolid(p.x, p.y)
    }

    /** The two collision queries give the same answer everywhere. */
    lemma QueriesAgree(worldPos: Vec2)
      requires Valid()
      ensures IsTileSolid(worldPos) == IsPositionBlocked(worldPos)
    {
    }

    /** clearAll: no tilesets, no maps and no current map. */
    method ClearAll()
      modifies this
      ensures Valid()
      ensures tilesets == map[] && tileMaps == map[] && currentMap == null
    {
      currentMap := null;
      tileMaps := map[];
      tilesets := map[];
    }

    /** getTilesetNames: every tileset name exactly once. */
    method GetTilesetNames() returns (names: seq<string>)
      ensures forall n :: n in names <==> n in tilesets
      ensures |names| == |tilesets.Keys|
    {
      names := KeyNames(tilesets);
    }

    /** getTileMapNames: every map name exactly once. */
    method GetTileMapNames() returns (names: seq<string>)
      ensures forall n :: n in names <==> n in tileMaps
      ensures |names| == |tileMaps.Keys|
    {
      names := KeyNames(tileMaps);
    }
  }
}
