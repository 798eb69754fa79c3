// One tile of a tileset: an id, a name, the rectangle of its texture in
// normalised texture coordinates, collision flags and a tint. The id, the
// name and the texture rectangle are never reassigned once a tile is made,
// so they are constants here; the flags and the tint are updated in place.

module Tiles {
  import opened Objects

  /** The four corners of a texture rectangle. */
  datatype Quad = Quad(topLeft: Vec2, topRight: Vec2, bottomLeft: Vec2, bottomRight: Vec2)

  /** The corners of the rectangle at `coords` with extent `size`: an
      axis-aligned rectangle whose top-left corner is `coords` and whose
      bottom-right corner is `coords + size`. */
  function TextureQuad(coords: Vec2, size: Vec2): (q: Quad)
    ensures q.topLeft == coords
    ensures q.topRight.y == q.topLeft.y && q.bottomRight.y == q.bottomLeft.y
    ensures q.bottomLeft.x == q.topLeft.x && q.bottomRight.x == q.topRight.x
    ensures q.topRight.x - q.topLeft.x == size.x && q.bottomLeft.y - q.topLeft.y == size.y
    ensures q.bottomRight == Vec2(coords.x + size.x, coords.y + size.y)
  {
    Quad(coords,
         Vec2(coords.x + size.x, coords.y),
         Vec2(coords.x, coords.y + size.y),
         Vec2(coords.x + size.x, coords.y + size.y))
  }

  /** The untinted, opaque white of a new tile. */
  const White := Color(1.0, 1.0, 1.0, 1.0)

  class Tile {
    const id: int
    const name: string
    const textureCoords: Vec2
    const textureSize: Vec2
    var isSolid: bool
    var isWalkable: bool
    var tintColor: Color
    var opacity: real

    /** Tile(): id 0 named "Unknown", covering the whole texture, passable
        and untinted. */
    constructor Default()
      ensures id == 0 && name == "Unknown"
      ensures textureCoords == Vec2(0.0, 0.0) && textureSize == Vec2(1.0, 1.0)
      ensures !isSolid && isWalkable
      ensures tintColor == White && opacity == 1.0
    {
      id := 0;
      name := "Unknown";
      textureCoords := Vec2(0.0, 0.0);
      textureSize := Vec2(1.0, 1.0);
      isSolid := false;
      isWalkable := true;
      tintColor := White;
      opacity := 1.0;
    }

    /** Tile(id, name, coords, size): the given identity and texture
        rectangle, with the same flags and tint as a default tile. */
    constructor (tileId: int, tileName: string, texCoords: Vec2, texSize: Vec2)
      ensures id == tileId && name == tileName
      ensures textureCoords == texCoords && textureSize == texSize
      ensures !isSolid && isWalkable
      ensures tintColor == White && opacity == 1.0
    {
      id := tileId;
      name := tileName;
      textureCoords := texCoords;
      textureSize := texSize;
      isSolid := false;
      isWalkable := true;
      tintColor := White;
      opacity := 1.0;
    }

    /** setProperties: sets the two collision flags and nothing else. */
    method SetProperties(solid: bool, walkable: bool)
      modifies this`isSolid, this`isWalkable
      ensures isSolid == solid && isWalkable == walkable
    {
      isSolid := solid;
      isWalkable := walkable;
    }

    /** setVisualProperties: sets the tint and the opacity and nothing
        else. */
    method SetVisualProperties(tint: Color, alpha: real)
      modifies this`tintColor, this`opacity
      ensures tintColor == tint && opacity == alpha
    {
      tintColor := tint;
      opacity := alpha;
    }

    /** getTextureQuad: the corners of the tile's texture rectangle. */
    method GetTextureQuad() returns (topLeft: Vec2, topRight: Vec2, bottomLeft: Vec2, bottomRight: Vec2)
      ensures Quad(topLeft, topRight, bottomLeft, bottomRight) == TextureQuad(textureCoords, textureSize)
    {
      topLeft := textureCoords;
      topRight := Vec2(textureCoords.x + textureSize.x, textureCoords.y);
      bottomLeft := Vec2(textureCoords.x, textureCoords.y + textureSize.y);
      bottomRight := Vec2(textureCoords.x + textureSize.x, textureCoords.y + textureSize.y);
    }
  }
}
