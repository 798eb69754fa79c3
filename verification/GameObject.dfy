// Game objects: an axis-aligned rectangle, a colour, a kind and a static
// flag, plus the collision predicates of the CollisionDetection namespace.
// Float coordinates are modelled as reals.

module Objects {

  datatype Rect = Rect(x: real, y: real, width: real, height: real)

  datatype Vec2 = Vec2(x: real, y: real)

  datatype Color = Color(r: real, g: real, b: real, a: real)

  datatype ObjectType = PLAYER | OBSTACLE | COLLECTIBLE | ENEMY

  /** How an enemy moves; declared with the Enemy class of the engine. The
      enumerators have the codes 0 to 3; a pattern cast from any other
      integer (as the scene parser does) is none of them and is kept as
      `Unnamed` with its code. */
  datatype MovementPattern = HORIZONTAL | VERTICAL | CIRCULAR | PATROL | Unnamed(code: int)

  /** static_cast<int> of a pattern. */
  function PatternCode(p: MovementPattern): int
  {
    match p
    case HORIZONTAL => 0
    case VERTICAL => 1
    case CIRCULAR => 2
    case PATROL => 3
    case Unnamed(c) => c
  }

  /** static_cast<MovementPattern> of an integer: the code is kept, and only
      0 to 3 name an enumerator. */
  function PatternOfCode(n: int): (p: MovementPattern)
    ensures PatternCode(p) == n
    ensures p.Unnamed? <==> !(0 <= n <= 3)
  {
    if n == 0 then HORIZONTAL
    else if n == 1 then VERTICAL
    else if n == 2 then CIRCULAR
    else if n == 3 then PATROL
    else Unnamed(n)
  }

  /** A pattern value the engine can hold: an unnamed one never carries the
      code of an enumerator. */
  predicate WellFormedPattern(p: MovementPattern)
  {
    p.Unnamed? ==> !(0 <= p.code <= 3)
  }

  /** Casting a pattern to its code and back gives the pattern again. */
  lemma PatternCodeRoundTrip(p: MovementPattern)
    requires WellFormedPattern(p)
    ensures PatternOfCode(PatternCode(p)) == p
  {
  }

  function Min(a: real, b: real): real { if a < b then a else b }
  function Max(a: real, b: real): real { if a < b then b else a }

  /** std::max(0, std::min(v, limit)): v pulled into [0, limit], with 0
      winning when the range is empty. */
  function Clamp(v: real, limit: real): (r: real)
    ensures r >= 0.0
    ensures 0.0 <= limit ==> r <= limit
    ensures 0.0 <= v <= limit ==> r == v
  {
    Max(0.0, Min(v, limit))
  }

  /** Clamping a clamped value changes nothing when the range is not empty. */
  lemma ClampIdempotent(v: real, limit: real)
    requires 0.0 <= limit
    ensures Clamp(Clamp(v, limit), limit) == Clamp(v, limit)
  {
  }

  /** A rectangle with its position clamped into [0, w - width] x
      [0, h - height]: it keeps its size and lies inside w x h when it fits. */
  function ClampInto(r: Rect, w: real, h: real): (c: Rect)
    ensures c.width == r.width && c.height == r.height
    ensures r.width <= w ==> 0.0 <= c.x <= w - r.width
    ensures r.height <= h ==> 0.0 <= c.y <= h - r.height
    ensures 0.0 <= r.x <= w - r.width && 0.0 <= r.y <= h - r.height ==> c == r
  {
    r.(x := Clamp(r.x, w - r.width), y := Clamp(r.y, h - r.height))
  }

  /** checkRectangleCollision: the open rectangles intersect. */
  predicate CheckRectangleCollision(r1: Rect, r2: Rect)
  {
    r1.x < r2.x + r2.width && r1.x + r1.width > r2.x &&
    r1.y < r2.y + r2.height && r1.y + r1.height > r2.y
  }

  /** checkPointInRectangle: the closed rectangle contains the point. */
  predicate CheckPointInRectangle(px: real, py: real, r: Rect)
  {
    px >= r.x && px <= r.x + r.width && py >= r.y && py <= r.y + r.height
  }

  /** Collision is symmetric, and rectangles that only share an edge do not
      collide. */
  lemma CollisionSymmetricAndStrict(r1: Rect, r2: Rect)
    ensures CheckRectangleCollision(r1, r2) <==> CheckRectangleCollision(r2, r1)
    ensures r1.x + r1.width == r2.x ==> !CheckRectangleCollision(r1, r2)
    ensures r1.y + r1.height == r2.y ==> !CheckRectangleCollision(r1, r2)
  {
  }

  /** Two rectangles of positive size collide exactly when some point lies
      strictly inside both. */
  lemma CollisionMeansCommonInterior(r1: Rect, r2: Rect)
    requires r1.width > 0.0 && r1.height > 0.0 && r2.width > 0.0 && r2.height > 0.0
    ensures CheckRectangleCollision(r1, r2) <==>
            exists px: real, py: real :: StrictlyInside(px, py, r1) && StrictlyInside(px, py, r2)
  {
    if CheckRectangleCollision(r1, r2) {
      var px := (Max(r1.x, r2.x) + Min(r1.x + r1.width, r2.x + r2.width)) / 2.0;
      var py := (Max(r1.y, r2.y) + Min(r1.y + r1.height, r2.y + r2.height)) / 2.0;
      assert StrictlyInside(px, py, r1) && StrictlyInside(px, py, r2);
    }
  }

  predicate StrictlyInside(px: real, py: real, r: Rect)
  {
    r.x < px < r.x + r.width && r.y < py < r.y + r.height
  }

  /** The point test includes the edges: the four corners of a rectangle
      of non-negative size are in it. */
  lemma CornersAreInside(r: Rect)
    requires r.width >= 0.0 && r.height >= 0.0
    ensures CheckPointInRectangle(r.x, r.y, r)
    ensures CheckPointInRectangle(r.x + r.width, r.y, r)
    ensures CheckPointInRectangle(r.x, r.y + r.height, r)
    ensures CheckPointInRectangle(r.x + r.width, r.y + r.height, r)
  {
  }

  /** getCenter as a function of the bounds. */
  function CenterOf(r: Rect): Vec2
  {
    Vec2(r.x + r.width / 2.0, r.y + r.height / 2.0)
  }

  /** The centre of a rectangle of non-negative size lies in it, at equal
      distance from opposite edges. */
  lemma CenterIsInside(r: Rect)
    requires r.width >= 0.0 && r.height >= 0.0
    ensures CheckPointInRectangle(CenterOf(r).x, CenterOf(r).y, r)
    ensures CenterOf(r).x - r.x == r.x + r.width - CenterOf(r).x
    ensures CenterOf(r).y - r.y == r.y + r.height - CenterOf(r).y
  {
  }

  class GameObject {
    var bounds: Rect
    var color: Color
    const kind: ObjectType
    const isStatic: bool

    constructor (x: real, y: real, width: real, height: real, color: Color, kind: ObjectType, isStatic: bool)
      ensures bounds == Rect(x, y, width, height)
      ensures this.color == color && this.kind == kind && this.isStatic == isStatic
    {
      bounds := Rect(x, y, width, height);
      this.color := color;
      this.kind := kind;
      this.isStatic := isStatic;
    }

    function GetCenter(): Vec2
      reads this
    {
      CenterOf(bounds)
    }

    /** setPosition: a static object does not move. */
    method SetPosition(x: real, y: real)
      modifies this`bounds
      ensures isStatic ==> bounds == old(bounds)
      ensures !isStatic ==> bounds == old(bounds).(x := x, y := y)
    {
      if !isStatic {
        bounds := bounds.(x := x, y := y);
      }
    }

    /** move: a static object does not move. */
    method Move(deltaX: real, deltaY: real)
      modifies this`bounds
      ensures isStatic ==> bounds == old(bounds)
      ensures !isStatic ==> bounds == old(bounds).(x := old(bounds).x + deltaX, y := old(bounds).y + deltaY)
    {
      if !isStatic {
        bounds := bounds.(x := bounds.x + deltaX, y := bounds.y + deltaY);
      }
    }

    predicate IsColliding(other: GameObject)
      reads this, other
    {
      CheckRectangleCollision(bounds, other.bounds)
    }

    predicate IsCollidingRect(rect: Rect)
      reads this
    {
      CheckRectangleCollision(bounds, rect)
    }

    /** constrainToBounds: a non-static object is pulled inside the screen
        when it fits; a static one is unchanged. */
    method ConstrainToBounds(screenWidth: int, screenHeight: int)
      modifies this`bounds
      ensures isStatic ==> bounds == old(bounds)
      ensures !isStatic ==> bounds == ClampInto(old(bounds), screenWidth as real, screenHeight as real)
    {
      if !isStatic {
        bounds := ClampInto(bounds, screenWidth as real, screenHeight as real);
      }
    }
  }
}
