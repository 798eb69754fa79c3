// A tile map: a grid of tile ids (one row per map line, `mapHeight` rows
// of `mapWidth` ids each) drawn with the tiles of a tileset, placed at a
// world position with a fixed pixel size per tile. Pixel and world
// coordinates are modelled as exact reals; `int` is unbounded, so the
// 32-bit overflow of `x + width` in fillRect is not modelled.

module TileMaps {
  import opened Objects
  import opened Tiles
  import opened Tilesets

  /** The grid has `h` rows of `w` ids each. */
  predicate Shaped(data: seq<seq<int>>, w: int, h: int)
  {
    h == |data| && forall y :: 0 <= y < h ==> |data[y]| == w
  }

  /** std::vector<int>::resize(w, 0): the first `w` ids are kept and any
      new ones are 0. */
  function ResizeRow(row: seq<int>, w: nat): (r: seq<int>)
    ensures |r| == w
    ensures forall x :: 0 <= x < w ==> r[x] == if x < |row| then row[x] else 0
  {
    if w <= |row| then row[..w] else row + seq(w - |row|, _ => 0)
  }

  /** std::vector<std::vector<int>>::resize(h): the first `h` rows are
      kept and any new ones are empty. */
  function ResizeRows(data: seq<seq<int>>, h: nat): (r: seq<seq<int>>)
    ensures |r| == h
    ensures forall y :: 0 <= y < h ==> r[y] == if y < |data| then data[y] else []
  {
    if h <= |data| then data[..h] else data + seq(h - |data|, _ => [])
  }

  /** The grid the constructor and initialize leave behind: `h` rows of
      `w` ids, where every cell that already existed keeps its id and every
      other cell is 0. Resizing an empty grid therefore gives all zeros. */
  function Resized(data: seq<seq<int>>, h: nat, w: int): (r: seq<seq<int>>)
    requires h > 0 ==> w >= 0
    ensures Shaped(r, w, h)
    ensures forall y, x :: 0 <= y < h && 0 <= x < w ==>
      r[y][x] == if y < |data| && x < |data[y]| then data[y][x] else 0
  {
    var r := seq(h, y requires 0 <= y < h => ResizeRow(if y < |data| then data[y] else [], w));
    assert forall y :: 0 <= y < h ==> r[y] == ResizeRow(if y < |data| then data[y] else [], w);
    r
  }

  /** static_cast<int> of a quotient: truncation toward zero. */
  function Truncate(q: real): (n: int)
    ensures q >= 0.0 ==> n as real <= q < n as real + 1.0
    ensures q < 0.0 ==> n as real - 1.0 < q <= n as real
  {
    if q >= 0.0 then q.Floor else -((-q).Floor)
  }

  /** The tile index of an offset along one axis, for tiles `size` pixels
      long. */
  function TileIndex(offset: real, size: int): int
    requires size > 0
  {
    Truncate(offset / size as real)
  }

  /** Truncation of a non-negative quotient gives the integer below it. */
  lemma TruncateBetween(q: real, n: int)
    requires n >= 0 && n as real <= q < n as real + 1.0
    ensures Truncate(q) == n
  {
    var m := Truncate(q);
    assert m as real < n as real + 1.0 && n as real < m as real + 1.0;
  }

  /** Dividing a point of [n*s, n*s + s) by s lands in [n, n + 1). */
  lemma QuotientInUnit(n: real, s: real, d: real)
    requires s > 0.0 && 0.0 <= d < s
    ensures n <= (n * s + d) / s < n + 1.0
  {
    QuotientSplit(n, s, d);
    FractionBelowOne(d, s);
  }

  lemma QuotientSplit(n: real, s: real, d: real)
    requires s > 0.0
    ensures (n * s + d) / s == n + d / s
  {
  }

  lemma FractionBelowOne(d: real, s: real)
    requires 0.0 <= d < s
    ensures 0.0 <= d / s < 1.0
  {
  }

  /** Every point of the square drawn for a tile with a non-negative index
      maps back to that index. */
  lemma TileSquareMapsBack(offset: real, n: int, d: real, size: int)
    requires size > 0 && n >= 0 && 0.0 <= d < size as real
    requires offset == n as real * size as real + d
    ensures TileIndex(offset, size) == n
  {
    var s := size as real;
    var q := (n as real * s + d) / s;
    QuotientInUnit(n as real, s, d);
    assert n as real <= q < n as real + 1.0;
    TruncateBetween(q, n);
    assert offset / s == q;
  }

  /** Because the conversion truncates toward zero, a point less than one
      tile to the left of (or above) the map is attributed to index 0. */
  lemma JustOutsideMapsToZero(offset: real, size: int)
    requires size > 0 && -(size as real) < offset < 0.0
    ensures TileIndex(offset, size) == 0
  {
    var q := offset / size as real;
    assert -1.0 < q < 0.0;
  }

  /** A tile position; glm::ivec2. */
  datatype TilePos = TilePos(x: int, y: int)

  class TileMap {
    var tileData: seq<seq<int>>
    var tileset: Tileset?
    var mapWidth: int
    var mapHeight: int
    var tilePixelWidth: int
    var tilePixelHeight: int
    var name: string
    var worldPosition: Vec2

    /** The grid has the map's dimensions and tiles have a positive pixel
        size. */
    ghost predicate Valid()
      reads this
    {
      Shaped(tileData, mapWidth, mapHeight) && tilePixelWidth > 0 && tilePixelHeight > 0
    }

    /** TileMap(): no tileset, an empty 0x0 grid, 64x64 pixel tiles at the
        world origin. */
    constructor Default()
      ensures Valid()
      ensures tileset == null && mapWidth == 0 && mapHeight == 0 && tileData == []
      ensures tilePixelWidth == 64 && tilePixelHeight == 64
      ensures name == "" && worldPosition == Vec2(0.0, 0.0)
    {
      tileData := [];
      tileset := null;
      mapWidth := 0;
      mapHeight := 0;
      tilePixelWidth := 64;
      tilePixelHeight := 64;
      name := "";
      worldPosition := Vec2(0.0, 0.0);
    }

    /** TileMap(width, height, tileset): the given dimensions and tileset,
        the tileset's pixel size (64x64 without one), and `height` rows of
        `width` zeros. A negative height, or a negative width with rows to
        fill, makes std::vector::resize throw and is not a valid call. */
    constructor (width: int, height: int, tilesetPtr: Tileset?)
      requires height >= 0 && (height > 0 ==> width >= 0)
      ensures Valid()
      ensures tileset == tilesetPtr && mapWidth == width && mapHeight == height
      ensures tilePixelWidth == 64 && tilePixelHeight == 64
      ensures tileData == Resized([], height, width)
      ensures forall x, y :: IsValidCoordinate(x, y) ==> GetTile(x, y) == 0
      ensures name == "" && worldPosition == Vec2(0.0, 0.0)
    {
      tileset := tilesetPtr;
      mapWidth := width;
      mapHeight := height;
      tilePixelWidth := 64;
      tilePixelHeight := 64;
      name := "";
      worldPosition := Vec2(0.0, 0.0);
      tileData := [];
      new;
      if tileset != null {
        tilePixelWidth := tileset.tileWidth;
        tilePixelHeight := tileset.tileHeight;
      }
      ResizeGrid(width, height);
    }

    /** The two resize steps the constructor and initialize share: the
        rows, then each row in turn. */
    method ResizeGrid(width: int, height: int)
      requires height >= 0 && (height > 0 ==> width >= 0)
      modifies this`tileData
      ensures tileData == Resized(old(tileData), height, width)
    {
      tileData := ResizeRows(tileData, height);
      ghost var rows := tileData;
      var y := 0;
      while y < height
        invariant 0 <= y <= height && |tileData| == height
        invariant forall k :: 0 <= k < y ==> tileData[k] == ResizeRow(rows[k], width)
        invariant forall k :: y <= k < height ==> tileData[k] == rows[k]
      {
        tileData := tileData[y := ResizeRow(tileData[y], width)];
        y := y + 1;
      }
      ghost var target := Resized(old(tileData), height, width);
      assert forall k :: 0 <= k < height ==> tileData[k] == target[k];
    }

    /** initialize: a null tileset is refused with nothing changed.
        Otherwise the map takes the tileset, its pixel size and the
        dimensions, and the grid is resized: cells that already existed keep
        their ids and only new cells are 0, so a map that was empty (new or
        cleared) becomes all zeros. */
    method Initialize(width: int, height: int, tilesetPtr: Tileset?) returns (ok: bool)
      requires tilesetPtr != null ==> height >= 0 && (height > 0 ==> width >= 0)
      modifies this
      ensures ok <==> tilesetPtr != null
      ensures !ok ==> unchanged(this)
      ensures ok ==>
        && Valid() && tileset == tilesetPtr && mapWidth == width && mapHeight == height
        && tilePixelWidth == 64 && tilePixelHeight == 64
        && tileData == Resized(old(tileData), height, width)
        && name == old(name) && worldPosition == old(worldPosition)
      ensures ok && old(tileData) == [] ==> forall x, y :: IsValidCoordinate(x, y) ==> GetTile(x, y) == 0
    {
      if tilesetPtr == null {
        return false;
      }
      tileset := tilesetPtr;
      mapWidth := width;
      mapHeight := height;
      tilePixelWidth := tileset.tileWidth;
      tilePixelHeight := tileset.tileHeight;
      ResizeGrid(width, height);
      return true;
    }

    /** clear: no rows and a 0x0 map, so every cell reads as -1. */
    method Clear()
      requires Valid()
      modifies this`tileData, this`mapWidth, this`mapHeight
      ensures Valid()
      ensures tileData == [] && mapWidth == 0 && mapHeight == 0
      ensures forall x, y :: GetTile(x, y) == -1
    {
      tileData := [];
      mapWidth := 0;
      mapHeight := 0;
    }

    /** isValidCoordinate: inside the map's dimensions; such a coordinate
        indexes the stored grid. */
    predicate IsValidCoordinate(x: int, y: int)
      reads this
      ensures IsValidCoordinate(x, y) && Valid() ==> 0 <= y < |tileData| && 0 <= x < |tileData[y]|
    {
      0 <= x < mapWidth && 0 <= y < mapHeight
    }

    /** getTile: the id stored at a valid coordinate, -1 anywhere else. */
    function GetTile(x: int, y: int): (id: int)
      requires Valid()
      reads this
      ensures IsValidCoordinate(x, y) ==> id == tileData[y][x]
      ensures !IsValidCoordinate(x, y) ==> id == -1
    {
      if IsValidCoordinate(x, y) then tileData[y][x] else -1
    }

    /** setTile: only cell (x, y) changes, and only when it is valid. */
    method SetTile(x: int, y: int, tileId: int)
      requires Valid()
      modifies this`tileData
      ensures Valid()
      ensures forall a, b :: GetTile(a, b) == if a == x && b == y && IsValidCoordinate(x, y) then tileId else old(GetTile(a, b))
    {
      if IsValidCoordinate(x, y) {
        tileData := tileData[y := tileData[y][x := tileId]];
      }
    }

    /** fill: every cell of the map holds `tileId`. */
    method Fill(tileId: int)
      requires Valid()
      modifies this`tileData
      ensures Valid()
      ensures forall a, b :: GetTile(a, b) == if IsValidCoordinate(a, b) then tileId else -1
    {
      var y := 0;
      while y < mapHeight
        invariant 0 <= y <= mapHeight
        invariant Valid()
        invariant forall b, a :: 0 <= b < y && 0 <= a < mapWidth ==> tileData[b][a] == tileId
      {
        var x := 0;
        assert |tileData[y]| == mapWidth;
        while x < mapWidth
          invariant 0 <= x <= mapWidth
          invariant Valid()
          invariant forall b, a :: 0 <= b < y && 0 <= a < mapWidth ==> tileData[b][a] == tileId
          invariant forall a :: 0 <= a < x ==> tileData[y][a] == tileId
        {
          tileData := tileData[y := tileData[y][x := tileId]];
          x := x + 1;
        }
        y := y + 1;
      }
    }

    /** fillRect: exactly the valid cells with x <= a < x + width and
        y <= b < y + height (the loops stop at min(x + width, mapWidth) and
        min(y + height, mapHeight)) hold `tileId`; every other cell keeps
        its id. */
    method FillRect(x: int, y: int, width: int, height: int, tileId: int)
      requires Valid()
      modifies this`tileData
      ensures Valid()
      ensures forall a, b ::
                GetTile(a, b) == if IsValidCoordinate(a, b) && x <= a < x + width && y <= b < y + height
                                 then tileId else old(GetTile(a, b))
    {
      var endX := if x + width < mapWidth then x + width else mapWidth;
      var endY := if y + height < mapHeight then y + height else mapHeight;
      var ty := y;
      while ty < endY
        invariant Valid() && y <= ty && (ty == y || ty <= endY)
        invariant forall a, b ::
                    GetTile(a, b) == if IsValidCoordinate(a, b) && x <= a < endX && y <= b < ty
                                     then tileId else old(GetTile(a, b))
      {
        var tx := x;
        while tx < endX
          invariant Valid() && x <= tx
          invariant forall a, b ::
                      GetTile(a, b) == if IsValidCoordinate(a, b) && x <= a < endX && (y <= b < ty || (b == ty && a < tx))
                                       then tileId else old(GetTile(a, b))
        {
          if IsValidCoordinate(tx, ty) {
            SetTile(tx, ty, tileId);
          }
          tx := tx + 1;
        }
        ty := ty + 1;
      }
    }

    /** getTileObject: the tileset's tile for the id at a valid coordinate;
        null without a tileset, off the map, or for an id the tileset does
        not know. A tile found carries the id stored in the cell. */
    function GetTileObject(x: int, y: int): (t: Tile?)
      requires Valid()
      reads this, tileset
      ensures t == null <==> tileset == null || !IsValidCoordinate(x, y) || GetTile(x, y) !in tileset.tileMap
      ensures t != null && tileset.Valid() ==> t.id == GetTile(x, y)
    {
      if tileset == null || !IsValidCoordinate(x, y) then null else tileset.TileById(tileData[y][x])
    }

    /** isTileSolid: a solid tile is found at the coordinate; never off the
        map or without a tileset. */
    predicate IsTileSolid(x: int, y: int)
      requires Valid()
      reads this, tileset, if tileset == null then {} else tileset.tileMap.Values
      ensures IsTileSolid(x, y) <==>
        && tileset != null && IsValidCoordinate(x, y) && GetTile(x, y) in tileset.tileMap
        && tileset.tileMap[GetTile(x, y)].isSolid
    {
      var tile := GetTileObject(x, y);
      tile != null && tile.isSolid
    }

    /** tileToWorldPosition: the world position of a tile's top-left
        corner. */
    function TileToWorldPosition(tileX: int, tileY: int): (p: Vec2)
      reads this
      ensures p.x - worldPosition.x == tileX as real * tilePixelWidth as real
      ensures p.y - worldPosition.y == tileY as real * tilePixelHeight as real
    {
      Vec2(worldPosition.x + tileX as real * tilePixelWidth as real,
           worldPosition.y + tileY as real * tilePixelHeight as real)
    }

    /** worldToTilePosition: the offset from the map's origin divided by
        the tile size and truncated toward zero on each axis. */
    function WorldToTilePosition(worldPos: Vec2): TilePos
      requires Valid()
      reads this
    {
      TilePos(TileIndex(worldPos.x - worldPosition.x, tilePixelWidth),
              TileIndex(worldPos.y - worldPosition.y, tilePixelHeight))
    }

    /** Every point of the square drawn for a tile of the map maps back to
        that tile. */
    lemma WorldToTileInvertsTileToWorld(tileX: int, tileY: int, dx: real, dy: real)
      requires Valid() && IsValidCoordinate(tileX, tileY)
      requires 0.0 <= dx < tilePixelWidth as real && 0.0 <= dy < tilePixelHeight as real
      ensures var corner := TileToWorldPosition(tileX, tileY);
        WorldToTilePosition(Vec2(corner.x + dx, corner.y + dy)) == TilePos(tileX, tileY)
    {
      var corner := TileToWorldPosition(tileX, tileY);
      TileSquareMapsBack(corner.x + dx - worldPosition.x, tileX, dx, tilePixelWidth);
      TileSquareMapsBack(corner.y + dy - worldPosition.y, tileY, dy, tilePixelHeight);
    }

    /** isPositionBlocked: the tile under the world position is solid. */
    predicate IsPositionBlocked(worldPos: Vec2)
      requires Valid()
      reads this, tileset, if tileset == null then {} else tileset.tileMap.Values
      ensures IsPositionBlocked(worldPos) ==> tileset != null
    {
      var p := WorldToTilePosition(worldPos);
      IsTileSolid(p.x, p.y)
    }

    /** With a tileset whose tiles are all passable (the grass tileset), no
        tile is solid and no position is blocked. */
    lemma PassableTilesetNeverBlocks(x: int, y: int, worldPos: Vec2)
      requires Valid() && tileset != null && tileset.AllWalkable()
      ensures !IsTileSolid(x, y) && !IsPositionBlocked(worldPos)
    {
    }

    method SetName(mapName: string)
      modifies this`name
      ensures name == mapName
    {
      name := mapName;
    }

    method SetWorldPosition(pos: Vec2)
      modifies this`worldPosition
      ensures worldPosition == pos
    {
      worldPosition := pos;
    }
  }
}
