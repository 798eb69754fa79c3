// A tileset: the tiles loaded one image file each, with lookups by id and
// by name and the decoded texture of each tile name. Tiles are owned by the
// `tiles` list; the lookups point into it. The texture decoder is the Disk
// value: an image loads when its file decodes.

module Tilesets {
  import opened Common
  import opened Objects
  import opened Tiles
  import Assets

  /** One row of the grass tile table. */
  datatype TileInfo = TileInfo(id: int, name: string, filename: string, isSolid: bool)

  /** The tiles of the grass tileset, in loading order. */
  const GrassTiles: seq<TileInfo> := [
    TileInfo(0, "Basic Grass", "grass_basic.png", false),
    TileInfo(1, "Dense Grass", "grass_dense.png", false),
    TileInfo(2, "Tall Grass", "grass_tall.png", false),
    TileInfo(3, "Grass with Flowers", "grass_flowers.png", false),
    TileInfo(4, "Dark Grass", "grass_dark.png", false),
    TileInfo(5, "Light Grass", "grass_light.png", false),
    TileInfo(10, "Top Edge", "grass_edge_top.png", false),
    TileInfo(11, "Right Edge", "grass_edge_right.png", false),
    TileInfo(12, "Bottom Edge", "grass_edge_bottom.png", false),
    TileInfo(13, "Left Edge", "grass_edge_left.png", false),
    TileInfo(14, "Top-Left Corner", "grass_corner_top_left.png", false),
    TileInfo(15, "Top-Right Corner", "grass_corner_top_right.png", false),
    TileInfo(20, "Stone Path", "grass_stone_path.png", false),
    TileInfo(21, "Dirt Patches", "grass_dirt_patches.png", false),
    TileInfo(22, "Worn Grass", "grass_worn.png", false),
    TileInfo(23, "Grass Transition", "grass_transition.png", false),
    TileInfo(24, "Rocky Grass", "grass_rocky.png", false),
    TileInfo(25, "Flower Patch", "grass_flower_patch.png", false)]

  /** Where a grass tile's image lives under the resources directory. */
  function GrassPath(resourcesPath: string, info: TileInfo): string
  {
    resourcesPath + "tiles/" + info.filename
  }

  /** The rows of a tile table whose image decodes, in table order. */
  function LoadedRows(infos: seq<TileInfo>, resourcesPath: string, disk: Disk): (r: seq<TileInfo>)
    ensures |r| <= |infos|
    ensures forall x :: x in r <==> x in infos && Assets.Decodes(disk, GrassPath(resourcesPath, x))
  {
    if infos == [] then []
    else
      var last := infos[|infos| - 1];
      LoadedRows(infos[..|infos| - 1], resourcesPath, disk)
        + (if Assets.Decodes(disk, GrassPath(resourcesPath, last)) then [last] else [])
  }

  /** The ids of some table rows. */
  function IdsOf(infos: seq<TileInfo>): set<int>
  {
    set i | 0 <= i < |infos| :: infos[i].id
  }

  /** The names of some table rows. */
  function NamesOf(infos: seq<TileInfo>): set<string>
  {
    set i | 0 <= i < |infos| :: infos[i].name
  }

  /** No grass tile is solid. */
  lemma GrassTilesPassable()
    ensures forall x :: x in GrassTiles ==> !x.isSolid
  {
  }

  /** Appending a row adds its id and its name. */
  lemma IdsNamesAppend(rows: seq<TileInfo>, info: TileInfo)
    ensures IdsOf(rows + [info]) == IdsOf(rows) + {info.id}
    ensures NamesOf(rows + [info]) == NamesOf(rows) + {info.name}
  {
    var r := rows + [info];
    assert r[|rows|] == info;
    forall i | 0 <= i < |rows|
      ensures r[i] == rows[i]
    {
    }
  }

  class Tileset {
    var tiles: seq<Tile>
    var tileMap: map<int, Tile>
    var tileNameMap: map<string, Tile>
    var tileTextures: map<string, Assets.Media>
    /** Every tileset uses 64x64 pixel tiles; nothing changes them. */
    const tileWidth: int := 64
    const tileHeight: int := 64
    var name: string

    /** Every tile reachable by id carries that id, every tile reachable by
        name carries that name, and both are owned by `tiles`. */
    ghost predicate Valid()
      reads this
    {
      && (forall id :: id in tileMap ==> tileMap[id].id == id && tileMap[id] in tiles)
      && (forall n :: n in tileNameMap ==> tileNameMap[n].name == n && tileNameMap[n] in tiles)
    }

    /** Every tile reachable by id is passable. */
    ghost predicate AllWalkable()
      reads this, tileMap.Values
    {
      forall id :: id in tileMap ==> !tileMap[id].isSolid && tileMap[id].isWalkable
    }

    /** Tileset(): no tiles, 64x64 pixel tiles, no name. */
    constructor ()
      ensures Valid()
      ensures tiles == [] && tileMap == map[] && tileNameMap == map[] && tileTextures == map[]
      ensures name == ""
    {
      tiles := [];
      tileMap := map[];
      tileNameMap := map[];
      tileTextures := map[];
      name := "";
    }

    method SetName(tilesetName: string)
      modifies this`name
      ensures name == tilesetName
    {
      name := tilesetName;
    }

    /** getTile(id): the tile loaded under the id, null for an unknown id.
        A tile found carries the id asked for. */
    function TileById(id: int): (t: Tile?)
      reads this
      ensures t == null <==> id !in tileMap
      ensures t != null && Valid() ==> t.id == id && t in tiles
    {
      if id in tileMap then tileMap[id] else null
    }

    /** getTile(name): the tile loaded under the name, null for an unknown
        name. A tile found carries the name asked for. */
    function TileByName(tileName: string): (t: Tile?)
      reads this
      ensures t == null <==> tileName !in tileNameMap
      ensures t != null && Valid() ==> t.name == tileName && t in tiles
    {
      if tileName in tileNameMap then tileNameMap[tileName] else null
    }

    /** getTileTexture: the texture decoded for the tile name, None (null)
        for an unknown name. */
    function GetTileTexture(tileName: string): (texture: Option<Assets.Media>)
      reads this
      ensures texture.None? <==> tileName !in tileTextures
      ensures texture.Some? ==> texture.value == tileTextures[tileName]
    {
      if tileName in tileTextures then Some(tileTextures[tileName]) else None
    }

    function GetTileCount(): nat
      reads this
    {
      |tiles|
    }

    /** getAllTiles: every owned tile, in loading order; every tile the
        lookups reach is among them. */
    function GetAllTiles(): (all: seq<Tile>)
      reads this
      ensures |all| == GetTileCount()
      ensures Valid() ==> (forall id :: id in tileMap ==> tileMap[id] in all)
                          && (forall n :: n in tileNameMap ==> tileNameMap[n] in all)
    {
      tiles
    }

    /** loadTileFromFile: an image that does not decode is refused with
        nothing changed. Otherwise a new passable tile with the id and the
        name is appended to the owned tiles (even when the id or the name
        was already in use, so the count grows by one per success), the id
        and the name now lead to it, and the texture is stored under the
        name. */
    method LoadTileFromFile(id: int, tileName: string, imagePath: string, disk: Disk) returns (ok: bool)
      requires Valid()
      modifies this`tiles, this`tileMap, this`tileNameMap, this`tileTextures
      ensures Valid()
      ensures ok <==> Assets.Decodes(disk, imagePath)
      ensures !ok ==> tiles == old(tiles) && tileMap == old(tileMap)
                      && tileNameMap == old(tileNameMap) && tileTextures == old(tileTextures)
      ensures ok ==>
        && |tiles| == |old(tiles)| + 1 && tiles[..|old(tiles)|] == old(tiles)
        && var t := tiles[|old(tiles)|];
           && fresh(t) && t.id == id && t.name == tileName && !t.isSolid && t.isWalkable
           && tileMap == old(tileMap)[id := t] && tileNameMap == old(tileNameMap)[tileName := t]
           && tileTextures == old(tileTextures)[tileName := Assets.Media(imagePath, disk.files[imagePath])]
    {
      if !Assets.Decodes(disk, imagePath) {
        return false;
      }
      var tile := new Tile(id, tileName, Vec2(0.0, 0.0), Vec2(1.0, 1.0));
      tiles := tiles + [tile];
      tileMap := tileMap[id := tile];
      tileNameMap := tileNameMap[tileName := tile];
      tileTextures := tileTextures[tileName := Assets.Media(imagePath, disk.files[imagePath])];
      return true;
    }

    /** addTile: the tile now found under the id when the image loads, null
        otherwise. */
    method AddTile(id: int, tileName: string, imagePath: string, disk: Disk) returns (tile: Tile?)
      requires Valid()
      modifies this`tiles, this`tileMap, this`tileNameMap, this`tileTextures
      ensures Valid()
      ensures tile != null <==> Assets.Decodes(disk, imagePath)
      ensures tile == null ==> tiles == old(tiles) && tileMap == old(tileMap)
      ensures tile != null ==> fresh(tile) && tile.id == id && tile.name == tileName
                               && tile == TileById(id) && tile == TileByName(tileName)
    {
      var ok := LoadTileFromFile(id, tileName, imagePath, disk);
      if ok {
        tile := TileById(id);
      } else {
        tile := null;
      }
    }

    /** The owned tiles and the lookups are exactly those of the table
        rows `rows` loaded in order. */
    ghost predicate HoldsRows(rows: seq<TileInfo>)
      reads this, set j | 0 <= j < |tiles| :: tiles[j]
    {
      && |tiles| == |rows|
      && (forall j :: 0 <= j < |tiles| ==> tiles[j].id == rows[j].id && tiles[j].name == rows[j].name
                                           && tiles[j].isSolid == rows[j].isSolid && tiles[j].isWalkable)
      && tileMap.Keys == IdsOf(rows) && tileNameMap.Keys == NamesOf(rows) && tileTextures.Keys == NamesOf(rows)
    }

    /** One turn of the loop of setupGrassTiles: the row is loaded and, when
        its image decodes, its tile gets the row's solidity and is made
        walkable. */
    method LoadRow(info: TileInfo, resourcesPath: string, disk: Disk, ghost rows: seq<TileInfo>)
      requires Valid() && HoldsRows(rows)
      modifies this`tiles, this`tileMap, this`tileNameMap, this`tileTextures
      ensures Valid()
      ensures HoldsRows(rows + if Assets.Decodes(disk, GrassPath(resourcesPath, info)) then [info] else [])
    {
      ghost var before := tiles;
      var ok := LoadTileFromFile(info.id, info.name, GrassPath(resourcesPath, info), disk);
      if ok {
        var tile := TileById(info.id);
        assert tile == tiles[|before|] && fresh(tile);
        tile.SetProperties(info.isSolid, true);
        IdsNamesAppend(rows, info);
        var grown := rows + [info];
        forall j | 0 <= j < |tiles|
          ensures tiles[j].id == grown[j].id && tiles[j].name == grown[j].name
          ensures tiles[j].isSolid == grown[j].isSolid && tiles[j].isWalkable
        {
          if j < |before| {
            assert tiles[j] == before[j] && grown[j] == rows[j] && before[j] != tile;
          } else {
            assert tiles[j] == tile && grown[j] == info;
          }
        }
        assert HoldsRows(grown);
      } else {
        assert rows + [] == rows;
      }
    }

    /** The loop of setupGrassTiles over any tile table, starting from an
        empty tileset. */
    method LoadRows(infos: seq<TileInfo>, resourcesPath: string, disk: Disk)
      requires Valid()
      requires tiles == [] && tileMap == map[] && tileNameMap == map[] && tileTextures == map[]
      modifies this`tiles, this`tileMap, this`tileNameMap, this`tileTextures
      ensures Valid() && HoldsRows(LoadedRows(infos, resourcesPath, disk))
    {
      var k := 0;
      while k < |infos|
        invariant 0 <= k <= |infos|
        invariant Valid() && HoldsRows(LoadedRows(infos[..k], resourcesPath, disk))
      {
        assert infos[..k + 1][..k] == infos[..k];
        LoadRow(infos[k], resourcesPath, disk, LoadedRows(infos[..k], resourcesPath, disk));
        k := k + 1;
      }
      assert infos[..k] == infos;
    }

    /** setupGrassTiles: all four collections are emptied, then the grass
        table is loaded. Afterwards the owned tiles are exactly the rows
        whose image decodes, the lookups know exactly their ids and names,
        and every tile is passable. */
    method SetupGrassTiles(resourcesPath: string, disk: Disk)
      modifies this`tiles, this`tileMap, this`tileNameMap, this`tileTextures
      ensures Valid() && AllWalkable()
      ensures var rows := LoadedRows(GrassTiles, resourcesPath, disk);
        && |tiles| == |rows|
        && (forall j :: 0 <= j < |tiles| ==> tiles[j].id == rows[j].id && tiles[j].name == rows[j].name)
        && tileMap.Keys == IdsOf(rows) && tileNameMap.Keys == NamesOf(rows) && tileTextures.Keys == NamesOf(rows)
    {
      tiles := [];
      tileMap := map[];
      tileNameMap := map[];
      tileTextures := map[];
      LoadRows(GrassTiles, resourcesPath, disk);
      GrassTilesPassable();
      var rows := LoadedRows(GrassTiles, resourcesPath, disk);
      forall id | id in tileMap
        ensures !tileMap[id].isSolid && tileMap[id].isWalkable
      {
        var j :| 0 <= j < |tiles| && tiles[j] == tileMap[id];
        assert rows[j] in GrassTiles;
      }
    }

    /** loadGrassTileset: names the tileset "Grass Tileset" and sets up the
        grass tiles; it always reports success. */
    method LoadGrassTileset(resourcesPath: string, disk: Disk) returns (ok: bool)
      modifies this`name, this`tiles, this`tileMap, this`tileNameMap, this`tileTextures
      ensures ok && name == "Grass Tileset"
      ensures Valid() && AllWalkable()
      ensures tileMap.Keys == IdsOf(LoadedRows(GrassTiles, resourcesPath, disk))
    {
      SetName("Grass Tileset");
      SetupGrassTiles(resourcesPath, disk);
      return true;
    }
  }
}
