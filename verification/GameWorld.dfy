// The game world: the objects it owns (player, obstacles, collectibles),
// its enemies, the player pointer, the screen and world sizes, the camera
// settings and its game-state machine. Objects are heap objects so that
// the player pointer keeps its identity while the object vector changes.

module Worlds {
  import opened Common
  import opened Objects
  import opened GameStates

  /** An enemy: a game object with a movement pattern. Its per-frame
      motion (sin/cos orbits and patrols) is not modelled; the world's
      update takes the moved bounds from an oracle. */
  class Enemy {
    var bounds: Rect
    var color: Color
    var kind: ObjectType
    var isStatic: bool
    var movementPattern: MovementPattern
    var movementSpeed: real
    var movementRange: real
    var originalPosition: Vec2
    var circleCenter: Vec2
    var circleRadius: real
    var patrolPointA: Vec2
    var patrolPointB: Vec2
    var movingToB: bool

    /** Enemy(x, y, pattern): a 40x40 non-static object typed OBSTACLE,
        speed 100, set up for its pattern. */
    constructor (x: real, y: real, pattern: MovementPattern)
      ensures bounds == Rect(x, y, 40.0, 40.0) && kind == OBSTACLE && !isStatic
      ensures movementPattern == pattern && movementSpeed == 100.0
      ensures circleRadius == (if pattern == CIRCULAR then 80.0 else 50.0)
      ensures movingToB == (pattern == PATROL)
    {
      bounds := Rect(x, y, 40.0, 40.0);
      color := Color(1.0, 0.5, 0.5, 1.0);
      kind := OBSTACLE;
      isStatic := false;
      movementPattern := pattern;
      movementSpeed := 100.0;
      originalPosition := Vec2(x, y);
      movementRange := 100.0;
      movingToB := false;
      circleRadius := 50.0;
      circleCenter := Vec2(0.0, 0.0);
      patrolPointA := Vec2(0.0, 0.0);
      patrolPointB := Vec2(0.0, 0.0);
      match pattern
      case HORIZONTAL =>
        movementRange := 150.0;
      case VERTICAL =>
        movementRange := 150.0;
      case CIRCULAR =>
        circleCenter := Vec2(x, y);
        circleRadius := 80.0;
      case PATROL =>
        patrolPointA := Vec2(x - 100.0, y);
        patrolPointB := Vec2(x + 100.0, y);
        movingToB := true;
      case Unnamed(_) =>
    }

    method SetMovementSpeed(speed: real)
      modifies this`movementSpeed
      ensures movementSpeed == speed
    {
      movementSpeed := speed;
    }

    method SetCircularMovement(center: Vec2, radius: real)
      modifies this`movementPattern, this`circleCenter, this`circleRadius
      ensures movementPattern == CIRCULAR && circleCenter == center && circleRadius == radius
    {
      movementPattern := CIRCULAR;
      circleCenter := center;
      circleRadius := radius;
    }

    method SetPatrolMovement(pointA: Vec2, pointB: Vec2)
      modifies this`movementPattern, this`patrolPointA, this`patrolPointB, this`movingToB
      ensures movementPattern == PATROL && patrolPointA == pointA && patrolPointB == pointB && movingToB
    {
      movementPattern := PATROL;
      patrolPointA := pointA;
      patrolPointB := pointB;
      movingToB := true;
    }
  }

  /** Whether handleCollisions collects o: a collectible that the player
      overlaps. */
  predicate Collected(o: GameObject, player: GameObject)
    reads o, player
  {
    o.kind == COLLECTIBLE && CheckRectangleCollision(player.bounds, o.bounds)
  }

  /** The objects handleCollisions keeps, in their order. */
  function Survivors(objects: seq<GameObject>, player: GameObject): (r: seq<GameObject>)
    reads objects, player
    ensures |r| <= |objects|
  {
    if objects == [] then []
    else
      var rest := Survivors(objects[..|objects| - 1], player);
      if Collected(objects[|objects| - 1], player) then rest else rest + [objects[|objects| - 1]]
  }

  /** One more object considered by the erase loop. */
  lemma SurvivorsSnoc(objects: seq<GameObject>, k: nat, player: GameObject)
    requires k < |objects|
    ensures Survivors(objects[..k + 1], player)
            == Survivors(objects[..k], player) + (if Collected(objects[k], player) then [] else [objects[k]])
  {
    assert objects[..k + 1][..k] == objects[..k];
  }

  /** Exactly the collected objects are dropped. */
  lemma {:induction false} SurvivorsAreUncollected(objects: seq<GameObject>, player: GameObject)
    ensures forall o :: o in Survivors(objects, player) <==> o in objects && !Collected(o, player)
  {
    if objects != [] {
      SurvivorsAreUncollected(objects[..|objects| - 1], player);
      assert objects == objects[..|objects| - 1] + [objects[|objects| - 1]];
    }
  }

  /** No object occurs twice. */
  predicate Distinct<T(==)>(s: seq<T>)
  {
    forall i, j :: 0 <= i < j < |s| ==> s[i] != s[j]
  }

  /** Survivors of a sequence of distinct objects are distinct. */
  lemma {:induction false} SurvivorsDistinct(objects: seq<GameObject>, player: GameObject)
    requires Distinct(objects)
    ensures Distinct(Survivors(objects, player))
  {
    if objects != [] {
      var init, last := objects[..|objects| - 1], objects[|objects| - 1];
      SurvivorsDistinct(init, player);
      SurvivorsAreUncollected(init, player);
      assert last !in init by {
        forall k | 0 <= k < |init| ensures init[k] != last {
          assert init[k] == objects[k];
        }
      }
      var rest := Survivors(init, player);
      if !Collected(last, player) {
        var r := rest + [last];
        forall i, j | 0 <= i < j < |r| ensures r[i] != r[j] {
          assert r[i] == rest[i];
          if j == |rest| {
            assert rest[i] in rest;
          } else {
            assert r[j] == rest[j];
          }
        }
      }
    }
  }

  /** The objects of a world with the given kind. */
  function CountKind(objects: seq<GameObject>, kind: ObjectType): (n: nat)
    ensures n <= |objects|
  {
    if objects == [] then 0
    else CountKind(objects[..|objects| - 1], kind) + (if objects[|objects| - 1].kind == kind then 1 else 0)
  }

  /** No object of a kind is counted exactly when none has that kind. */
  lemma {:induction false} CountKindZero(objects: seq<GameObject>, kind: ObjectType)
    ensures CountKind(objects, kind) == 0 <==> forall o :: o in objects ==> o.kind != kind
  {
    if objects != [] {
      CountKindZero(objects[..|objects| - 1], kind);
      assert objects == objects[..|objects| - 1] + [objects[|objects| - 1]];
    }
  }

  /** No object of the kind: the count is zero. */
  lemma {:induction false} CountNone(objs: seq<GameObject>, kind: ObjectType)
    requires forall i :: 0 <= i < |objs| ==> objs[i].kind != kind
    ensures CountKind(objs, kind) == 0
  {
    if objs != [] {
      CountNone(objs[..|objs| - 1], kind);
    }
  }

  /** Every object of the kind: the count is the length. */
  lemma {:induction false} CountAll(objs: seq<GameObject>, kind: ObjectType)
    requires forall i :: 0 <= i < |objs| ==> objs[i].kind == kind
    ensures CountKind(objs, kind) == |objs|
  {
    if objs != [] {
      CountAll(objs[..|objs| - 1], kind);
    }
  }

  lemma {:induction false} CountKindAppend(a: seq<GameObject>, b: seq<GameObject>, kind: ObjectType)
    ensures CountKind(a + b, kind) == CountKind(a, kind) + CountKind(b, kind)
    decreases |b|
  {
    if b != [] {
      var b' := b[..|b| - 1];
      CountKindAppend(a, b', kind);
      assert (a + b)[..|a + b| - 1] == a + b';
    } else {
      assert a + b == a;
    }
  }

  /** The world initialize builds counts one player, nine obstacles,
      twelve collectibles and no enemy among its objects. */
  lemma InitialCounts(objs: seq<GameObject>)
    requires |objs| == 22 && objs[0].kind == PLAYER
    requires forall i :: 1 <= i < 10 ==> objs[i].kind == OBSTACLE
    requires forall i :: 10 <= i < 22 ==> objs[i].kind == COLLECTIBLE
    ensures CountKind(objs, PLAYER) == 1 && CountKind(objs, OBSTACLE) == 9
    ensures CountKind(objs, COLLECTIBLE) == 12 && CountKind(objs, ENEMY) == 0
  {
    var a, b, c := objs[..1], objs[1..10], objs[10..];
    assert objs == a + b + c;
    forall kind | true
      ensures CountKind(objs, kind) == CountKind(a, kind) + CountKind(b, kind) + CountKind(c, kind)
    {
      CountKindAppend(a + b, c, kind);
      CountKindAppend(a, b, kind);
    }
    CountAll(a, PLAYER);
    CountAll(b, OBSTACLE);
    CountAll(c, COLLECTIBLE);
    CountNone(a, OBSTACLE); CountNone(a, COLLECTIBLE); CountNone(a, ENEMY);
    CountNone(b, PLAYER); CountNone(b, COLLECTIBLE); CountNone(b, ENEMY);
    CountNone(c, PLAYER); CountNone(c, OBSTACLE); CountNone(c, ENEMY);
  }

  /** The obstacles initialize places, in order. */
  const DefaultObstacles: seq<Rect> := [
    Rect(300.0, 200.0, 80.0, 80.0), Rect(500.0, 300.0, 60.0, 120.0), Rect(200.0, 350.0, 100.0, 50.0),
    Rect(800.0, 150.0, 70.0, 90.0), Rect(1000.0, 400.0, 120.0, 60.0), Rect(600.0, 600.0, 80.0, 80.0),
    Rect(1200.0, 250.0, 100.0, 150.0), Rect(400.0, 800.0, 90.0, 70.0), Rect(1400.0, 500.0, 110.0, 80.0)]

  /** The collectibles initialize places, in order, each 30 by 30. */
  const DefaultCollectibles: seq<Rect> := [
    Rect(450.0, 150.0, 30.0, 30.0), Rect(150.0, 250.0, 30.0, 30.0), Rect(400.0, 400.0, 30.0, 30.0),
    Rect(700.0, 300.0, 30.0, 30.0), Rect(900.0, 200.0, 30.0, 30.0), Rect(1100.0, 350.0, 30.0, 30.0),
    Rect(650.0, 550.0, 30.0, 30.0), Rect(1300.0, 600.0, 30.0, 30.0), Rect(350.0, 750.0, 30.0, 30.0),
    Rect(1500.0, 400.0, 30.0, 30.0), Rect(800.0, 700.0, 30.0, 30.0), Rect(1200.0, 100.0, 30.0, 30.0)]

  /** The enemies initialize places, in order, each 40 by 40, with their
      movement patterns. */
  const DefaultEnemies: seq<(Rect, MovementPattern)> := [
    (Rect(400.0, 300.0, 40.0, 40.0), HORIZONTAL), (Rect(700.0, 450.0, 40.0, 40.0), VERTICAL),
    (Rect(900.0, 300.0, 40.0, 40.0), CIRCULAR), (Rect(1200.0, 400.0, 40.0, 40.0), PATROL),
    (Rect(600.0, 200.0, 40.0, 40.0), HORIZONTAL), (Rect(1000.0, 600.0, 40.0, 40.0), VERTICAL),
    (Rect(500.0, 700.0, 40.0, 40.0), CIRCULAR)]

  class GameWorld {
    var gameObjects: seq<GameObject>
    var enemies: seq<Enemy>
    var player: GameObject?
    var screenWidth: int
    var screenHeight: int
    var cameraFollowSpeed: real
    var cameraFollowEnabled: bool
    var worldWidth: real
    var worldHeight: real
    var hasAudioManager: bool
    const gameState: GameStateManager

    /** The object vector holds each object once (unique_ptr ownership),
        and the player pointer, when set, points into it. */
    ghost predicate Valid()
      reads this
    {
      Distinct(gameObjects) && Distinct(enemies) &&
      (player != null ==> player in gameObjects && player.kind == PLAYER)
    }

    constructor ()
      ensures Valid() && fresh(gameState)
      ensures gameObjects == [] && enemies == [] && player == null
      ensures screenWidth == 640 && screenHeight == 480
      ensures cameraFollowSpeed == 5.0 && cameraFollowEnabled
      ensures worldWidth == 2000.0 && worldHeight == 1500.0 && !hasAudioManager
      ensures gameState.currentState == PLAYING && gameState.gameOverTime == 0.0
    {
      gameObjects := [];
      enemies := [];
      player := null;
      screenWidth := 640;
      screenHeight := 480;
      cameraFollowSpeed := 5.0;
      cameraFollowEnabled := true;
      worldWidth := 2000.0;
      worldHeight := 1500.0;
      hasAudioManager := false;
      gameState := new GameStateManager();
    }

    /** The objects initialize places: the player at (100, 100) first,
        then the nine default obstacles and the twelve default collectibles
        in order, and the seven default enemies in their own list. */
    ghost predicate InitialLayout()
      reads this, set o | o in gameObjects, set e | e in enemies
    {
      && |gameObjects| == 22 && |enemies| == 7
      && player == gameObjects[0] && player.kind == PLAYER
      && player.bounds == Rect(100.0, 100.0, 50.0, 50.0) && !player.isStatic
      && (forall i :: 1 <= i < 10 ==> gameObjects[i].kind == OBSTACLE && gameObjects[i].bounds == DefaultObstacles[i - 1])
      && (forall i :: 10 <= i < 22 ==>
            gameObjects[i].kind == COLLECTIBLE && gameObjects[i].bounds == DefaultCollectibles[i - 10])
      && (forall i :: 0 <= i < 7 ==>
            enemies[i].kind == ENEMY && enemies[i].bounds == DefaultEnemies[i].0
            && enemies[i].movementPattern == DefaultEnemies[i].1)
    }

    /** initialize: the screen size is set, the world is emptied and then
        filled with the player, the default obstacles, collectibles and
        enemies, and the game is reset to PLAYING. */
    method Initialize(width: int, height: int)
      modifies this, gameState
      ensures Valid() && InitialLayout()
      ensures screenWidth == width && screenHeight == height
      ensures CountKind(gameObjects, PLAYER) == 1 && CountKind(gameObjects, OBSTACLE) == 9
      ensures CountKind(gameObjects, COLLECTIBLE) == 12
      ensures gameState.currentState == PLAYING && gameState.gameOverTime == 0.0
      ensures worldWidth == old(worldWidth) && worldHeight == old(worldHeight)
    {
      screenWidth := width;
      screenHeight := height;
      PlaceDefaults();
      gameState.ResetGame();
    }

    /** The part of initialize that empties the world and creates its
        objects, in the engine's order. */
    method PlaceDefaults()
      modifies this`gameObjects, this`enemies, this`player
      ensures Valid() && InitialLayout()
      ensures CountKind(gameObjects, PLAYER) == 1 && CountKind(gameObjects, OBSTACLE) == 9
      ensures CountKind(gameObjects, COLLECTIBLE) == 12
    {
      gameObjects := [];
      enemies := [];
      player := null;

      player := CreatePlayer(100.0, 100.0);

      CreateDefaultObstacles();
      ghost var placed := gameObjects;
      assert forall i :: 1 <= i < 10 ==> placed[i].kind == OBSTACLE && placed[i].bounds == DefaultObstacles[i - 1];
      CreateDefaultCollectibles();
      assert forall i :: 0 <= i < 10 ==> gameObjects[i] == placed[i];
      CreateDefaultEnemies();
      InitialCounts(gameObjects);
    }

    /** The world as Scene::loadScene prepares it before adding the
        scene's own objects: the screen size is set and the world holds no
        objects, no enemies and no player. */
    method InitializeEmpty(width: int, height: int)
      modifies this`screenWidth, this`screenHeight, this`gameObjects, this`enemies, this`player
      ensures Valid()
      ensures screenWidth == width && screenHeight == height
      ensures gameObjects == [] && enemies == [] && player == null
    {
      screenWidth := width;
      screenHeight := height;
      gameObjects := [];
      enemies := [];
      player := null;
    }

    method UpdateScreenSize(width: int, height: int)
      modifies this`screenWidth, this`screenHeight
      ensures screenWidth == width && screenHeight == height
    {
      screenWidth := width;
      screenHeight := height;
    }

    method SetCameraFollowSpeed(speed: real)
      modifies this`cameraFollowSpeed
      ensures cameraFollowSpeed == speed
    {
      cameraFollowSpeed := speed;
    }

    method EnableCameraFollow(enable: bool)
      modifies this`cameraFollowEnabled
      ensures cameraFollowEnabled == enable
    {
      cameraFollowEnabled := enable;
    }

    /** Everything but the audio attachment is as it was. */
    twostate predicate SameExceptAudio()
      reads this
    {
      && gameObjects == old(gameObjects) && enemies == old(enemies) && player == old(player)
      && screenWidth == old(screenWidth) && screenHeight == old(screenHeight)
      && cameraFollowSpeed == old(cameraFollowSpeed) && cameraFollowEnabled == old(cameraFollowEnabled)
      && worldWidth == old(worldWidth) && worldHeight == old(worldHeight)
    }

    /** setAudioManager: only whether a manager is attached is kept. */
    method SetAudioManager(present: bool)
      modifies this`hasAudioManager
      ensures hasAudioManager == present
    {
      hasAudioManager := present;
    }

    /** The nine obstacles of initialize, appended in order: one
        createObstacle call per entry of the table of their rectangles. */
    method CreateDefaultObstacles()
      requires Valid()
      modifies this`gameObjects
      ensures Valid()
      ensures |gameObjects| == |old(gameObjects)| + 9 && gameObjects[..|old(gameObjects)|] == old(gameObjects)
      ensures forall i :: |old(gameObjects)| <= i < |gameObjects| ==>
        gameObjects[i].kind == OBSTACLE && gameObjects[i].bounds == DefaultObstacles[i - |old(gameObjects)|]
    {
      ghost var n := |gameObjects|;
      for k := 0 to |DefaultObstacles|
        invariant Valid()
        invariant |gameObjects| == n + k && gameObjects[..n] == old(gameObjects)
        invariant forall i :: n <= i < |gameObjects| ==>
          gameObjects[i].kind == OBSTACLE && gameObjects[i].bounds == DefaultObstacles[i - n]
      {
        var r := DefaultObstacles[k];
        var o := CreateObstacle(r.x, r.y, r.width, r.height);
      }
    }

    /** The twelve collectibles of initialize, appended in order: one
        createCollectible call per entry of the table of their positions. */
    method CreateDefaultCollectibles()
      requires Valid()
      modifies this`gameObjects
      ensures Valid()
      ensures |gameObjects| == |old(gameObjects)| + 12 && gameObjects[..|old(gameObjects)|] == old(gameObjects)
      ensures forall i :: |old(gameObjects)| <= i < |gameObjects| ==>
        gameObjects[i].kind == COLLECTIBLE && gameObjects[i].bounds == DefaultCollectibles[i - |old(gameObjects)|]
    {
      ghost var n := |gameObjects|;
      for k := 0 to |DefaultCollectibles|
        invariant Valid()
        invariant |gameObjects| == n + k && gameObjects[..n] == old(gameObjects)
        invariant forall i :: n <= i < |gameObjects| ==>
          gameObjects[i].kind == COLLECTIBLE && gameObjects[i].bounds == DefaultCollectibles[i - n]
      {
        var c := CreateCollectible(DefaultCollectibles[k].x, DefaultCollectibles[k].y);
      }
    }

    /** The seven enemies of initialize, appended in order: one
        createEnemy call per entry of the table of their positions and
        patterns. */
    method CreateDefaultEnemies()
      requires Valid()
      modifies this`enemies
      ensures Valid()
      ensures |enemies| == |old(enemies)| + 7 && enemies[..|old(enemies)|] == old(enemies)
      ensures forall i :: |old(enemies)| <= i < |enemies| ==>
        && enemies[i].kind == ENEMY
        && enemies[i].bounds == DefaultEnemies[i - |old(enemies)|].0
        && enemies[i].movementPattern == DefaultEnemies[i - |old(enemies)|].1
    {
      ghost var n := |enemies|;
      for k := 0 to |DefaultEnemies|
        invariant Valid()
        invariant |enemies| == n + k && enemies[..n] == old(enemies)
        invariant forall i :: n <= i < |enemies| ==>
          && enemies[i].kind == ENEMY
          && enemies[i].bounds == DefaultEnemies[i - n].0
          && enemies[i].movementPattern == DefaultEnemies[i - n].1
      {
        var (r, pattern) := DefaultEnemies[k];
        var e := CreateEnemy(r.x, r.y, pattern);
      }
    }

    method AddObject(o: GameObject)
      requires Valid() && o !in gameObjects
      modifies this`gameObjects
      ensures gameObjects == old(gameObjects) + [o]
      ensures Valid()
    {
      gameObjects := gameObjects + [o];
    }

    /** createPlayer: a fresh 50x50 green non-static PLAYER object is
        appended and returned; the world's player pointer is not set. */
    method CreatePlayer(x: real, y: real) returns (p: GameObject)
      requires Valid()
      modifies this`gameObjects
      ensures fresh(p) && gameObjects == old(gameObjects) + [p]
      ensures p.bounds == Rect(x, y, 50.0, 50.0) && p.kind == PLAYER && !p.isStatic
      ensures Valid()
    {
      p := new GameObject(x, y, 50.0, 50.0, Color(0.0, 1.0, 0.0, 1.0), PLAYER, false);
      AddObject(p);
    }

    /** createObstacle: a fresh static OBSTACLE object is appended. */
    method CreateObstacle(x: real, y: real, width: real, height: real) returns (o: GameObject)
      requires Valid()
      modifies this`gameObjects
      ensures fresh(o) && gameObjects == old(gameObjects) + [o]
      ensures o.bounds == Rect(x, y, width, height) && o.kind == OBSTACLE && o.isStatic
      ensures o.color == Color(0.8, 0.2, 0.2, 1.0)
      ensures Valid()
    {
      o := new GameObject(x, y, width, height, Color(0.8, 0.2, 0.2, 1.0), OBSTACLE, true);
      AddObject(o);
    }

    /** createCollectible: a fresh 30x30 static COLLECTIBLE is appended. */
    method CreateCollectible(x: real, y: real) returns (o: GameObject)
      requires Valid()
      modifies this`gameObjects
      ensures fresh(o) && gameObjects == old(gameObjects) + [o]
      ensures o.bounds == Rect(x, y, 30.0, 30.0) && o.kind == COLLECTIBLE && o.isStatic
      ensures o.color == Color(1.0, 1.0, 0.0, 1.0)
      ensures Valid()
    {
      o := new GameObject(x, y, 30.0, 30.0, Color(1.0, 1.0, 0.0, 1.0), COLLECTIBLE, true);
      AddObject(o);
    }

    /** createEnemy: a fresh enemy typed ENEMY goes to the enemy list only. */
    method CreateEnemy(x: real, y: real, pattern: MovementPattern) returns (e: Enemy)
      requires Valid()
      modifies this`enemies
      ensures fresh(e) && enemies == old(enemies) + [e]
      ensures Valid()
      ensures e.kind == ENEMY && e.bounds == Rect(x, y, 40.0, 40.0) && e.movementPattern == pattern
      ensures e.movementSpeed == 100.0
    {
      e := new Enemy(x, y, pattern);
      e.kind := ENEMY;
      enemies := enemies + [e];
    }

    /** handleCollisions (with the player pointer kept; see the findings):
        without a player nothing happens; otherwise exactly the collected
        objects are erased and the rest keep their order. */
    method HandleCollisions()
      requires Valid()
      modifies this`gameObjects
      ensures player == null ==> gameObjects == old(gameObjects)
      ensures player != null ==> gameObjects == Survivors(old(gameObjects), player)
      ensures Valid()
    {
      if player == null {
        return;
      }
      ghost var objects := gameObjects;
      gameObjects := EraseCollected(gameObjects, player);
      SurvivorsDistinct(old(gameObjects), player);
      SurvivorsAreUncollected(old(gameObjects), player);
      KeepsPlayer(old(gameObjects), player);
    }

    /** Whether the player, moved to (newX, newY), would overlap an
        obstacle other than itself. */
    predicate Blocked(newX: real, newY: real)
      reads this, gameObjects, player
    {
      player != null && Obstructs(gameObjects, player, Rect(newX, newY, player.bounds.width, player.bounds.height))
    }

    /** checkPlayerCollisions: the search for such an obstacle. */
    method CheckPlayerCollisions(newX: real, newY: real) returns (hit: bool)
      ensures hit == Blocked(newX, newY)
    {
      if player == null {
        return false;
      }
      var testRect := Rect(newX, newY, player.bounds.width, player.bounds.height);
      var i := 0;
      while i < |gameObjects|
        invariant 0 <= i <= |gameObjects|
        invariant forall k :: 0 <= k < i ==> !(gameObjects[k] != player && gameObjects[k].kind == OBSTACLE &&
                                                CheckRectangleCollision(testRect, gameObjects[k].bounds))
      {
        var obj := gameObjects[i];
        if obj != player && obj.kind == OBSTACLE {
          if CheckRectangleCollision(testRect, obj.bounds) {
            return true;
          }
        }
        i := i + 1;
      }
      return false;
    }

    /** Where updatePlayer leaves the player when it asks to move by
        (deltaX, deltaY): first the horizontal move, undone when it runs
        into an obstacle, then the vertical move from there, undone
        likewise. */
    function Stepped(deltaX: real, deltaY: real): (r: Rect)
      requires player != null
      reads this, gameObjects, player
      ensures r.width == player.bounds.width && r.height == player.bounds.height
      ensures r.x == player.bounds.x || r.x == player.bounds.x + deltaX
      ensures r.y == player.bounds.y || r.y == player.bounds.y + deltaY
    {
      var current := player.bounds;
      var x := if Blocked(current.x + deltaX, current.y) then current.x else current.x + deltaX;
      var y := if Blocked(x, current.y + deltaY) then current.y else current.y + deltaY;
      current.(x := x, y := y)
    }

    /** A player that starts clear of every obstacle ends clear of every
        obstacle, and an unobstructed move is taken in full. */
    lemma SteppedStaysClear(deltaX: real, deltaY: real)
      requires player != null
      ensures !Blocked(player.bounds.x, player.bounds.y) ==> !Blocked(Stepped(deltaX, deltaY).x, Stepped(deltaX, deltaY).y)
      ensures !Blocked(player.bounds.x + deltaX, player.bounds.y) && !Blocked(player.bounds.x + deltaX, player.bounds.y + deltaY) ==>
              Stepped(deltaX, deltaY) == player.bounds.(x := player.bounds.x + deltaX, y := player.bounds.y + deltaY)
    {
    }

    /** updatePlayer: nothing happens without a player, a static player
        does not move, and otherwise each axis move is kept only when it
        does not run into an obstacle. */
    method UpdatePlayer(moveX: real, moveY: real, speed: real, deltaTime: real)
      modifies (if player == null then {} else {player})`bounds
      ensures player != null && player.isStatic ==> player.bounds == old(player.bounds)
      ensures player != null && !player.isStatic ==>
              player.bounds == old(Stepped(moveX * speed * deltaTime, moveY * speed * deltaTime))
    {
      if player == null {
        return;
      }
      var deltaX := moveX * speed * deltaTime;
      var deltaY := moveY * speed * deltaTime;
      var currentX := player.bounds.x;
      var currentY := player.bounds.y;
      ghost var target := Stepped(deltaX, deltaY);

      player.SetPosition(currentX + deltaX, currentY);
      var hit := CheckPlayerCollisions(player.bounds.x, player.bounds.y);
      if hit {
        player.SetPosition(currentX, currentY);
      }
      assert !player.isStatic ==> player.bounds.x == target.x;

      player.SetPosition(player.bounds.x, currentY + deltaY);
      hit := CheckPlayerCollisions(player.bounds.x, player.bounds.y);
      if hit {
        player.SetPosition(player.bounds.x, currentY);
      }
    }

    /** Whether the player overlaps some enemy. */
    predicate TouchesEnemy()
      reads this, player, enemies
    {
      player != null && exists i :: 0 <= i < |enemies| && CheckRectangleCollision(player.bounds, enemies[i].bounds)
    }

    /** checkPlayerEnemyCollisions: without a player, or once the game is
        over, nothing happens; otherwise touching an enemy ends the game. */
    method CheckPlayerEnemyCollisions()
      modifies gameState
      ensures player == null || old(gameState.currentState) == GAME_OVER || !TouchesEnemy() ==>
              gameState.currentState == old(gameState.currentState) && gameState.gameOverTime == old(gameState.gameOverTime)
      ensures player != null && old(gameState.currentState) != GAME_OVER && TouchesEnemy() ==>
              gameState.currentState == GAME_OVER && gameState.gameOverTime == 0.0
    {
      if player == null || gameState.IsGameOver() {
        return;
      }
      var i := 0;
      while i < |enemies|
        invariant 0 <= i <= |enemies|
        invariant forall k :: 0 <= k < i ==> !CheckRectangleCollision(player.bounds, enemies[k].bounds)
      {
        if player.IsCollidingRect(enemies[i].bounds) {
          gameState.TriggerGameOver();
          return;
        }
        i := i + 1;
      }
    }

    /** updateEnemies: each enemy takes the bounds its own movement
        produced this frame (moved[i], computed outside the model) and is
        then clamped into the world. */
    method UpdateEnemies(moved: seq<Rect>)
      requires Valid() && |moved| == |enemies|
      modifies enemies`bounds
      ensures forall i :: 0 <= i < |enemies| ==> enemies[i].bounds == ClampInto(moved[i], worldWidth, worldHeight)
    {
      MoveEnemies(enemies, moved, worldWidth, worldHeight);
    }

    /** The moves of update while PLAYING: the non-static objects other
        than the player are constrained to the screen, the player is
        clamped into the world and the enemies move. */
    method MoveStep(moved: seq<Rect>)
      requires Valid() && |moved| == |enemies|
      modifies gameObjects`bounds, enemies`bounds
      ensures player != null ==> player.bounds == ClampInto(old(player.bounds), worldWidth, worldHeight)
      ensures forall o :: o in gameObjects && o != player && !o.isStatic ==>
                o.bounds == ClampInto(old(o.bounds), screenWidth as real, screenHeight as real)
      ensures forall o :: o in gameObjects && o != player && o.isStatic ==> o.bounds == old(o.bounds)
      ensures forall i :: 0 <= i < |enemies| ==> enemies[i].bounds == ClampInto(moved[i], worldWidth, worldHeight)
    {
      ConstrainObjects(gameObjects, player, screenWidth, screenHeight);
      if player != null {
        player.bounds := ClampInto(player.bounds, worldWidth, worldHeight);
      }
      UpdateEnemies(moved);
    }

    /** The collision checks of update while PLAYING: collected objects
        are erased and touching an enemy ends the game. */
    method CollideStep()
      requires Valid() && gameState.currentState == PLAYING
      modifies gameState, this`gameObjects
      ensures Valid()
      ensures gameObjects == if player == null then old(gameObjects) else Survivors(old(gameObjects), player)
      ensures gameState.currentState == (if TouchesEnemy() then GAME_OVER else PLAYING)
      ensures gameState.gameOverTime == (if TouchesEnemy() then 0.0 else old(gameState.gameOverTime))
    {
      HandleCollisions();
      CheckPlayerEnemyCollisions();
    }

    /** update: the game-over clock runs, and only while PLAYING do
        objects move or go (see MoveStep and CollideStep). */
    method Update(deltaTime: real, moved: seq<Rect>)
      requires Valid() && |moved| == |enemies|
      modifies gameState, this`gameObjects, gameObjects`bounds, enemies`bounds
      ensures Valid()
      ensures old(gameState.currentState) != PLAYING ==>
              && gameObjects == old(gameObjects)
              && (forall o :: o in gameObjects ==> o.bounds == old(o.bounds))
              && (forall e :: e in enemies ==> e.bounds == old(e.bounds))
              && gameState.currentState == old(gameState.currentState)
              && gameState.gameOverTime == (if old(gameState.currentState) == GAME_OVER
                                            then old(gameState.gameOverTime) + deltaTime
                                            else old(gameState.gameOverTime))
      ensures old(gameState.currentState) == PLAYING ==>
              && (player != null ==> player.bounds == ClampInto(old(player.bounds), worldWidth, worldHeight))
              && (forall o :: o in old(gameObjects) && o != player && !o.isStatic ==>
                                o.bounds == ClampInto(old(o.bounds), screenWidth as real, screenHeight as real))
              && (forall o :: o in old(gameObjects) && o != player && o.isStatic ==> o.bounds == old(o.bounds))
              && (forall i :: 0 <= i < |enemies| ==> enemies[i].bounds == ClampInto(moved[i], worldWidth, worldHeight))
              && gameObjects == (if player == null then old(gameObjects) else Survivors(old(gameObjects), player))
              && gameState.currentState == (if TouchesEnemy() then GAME_OVER else PLAYING)
              && gameState.gameOverTime == (if TouchesEnemy() then 0.0 else old(gameState.gameOverTime))
    {
      gameState.Update(deltaTime);
      if gameState.IsPlaying() {
        MoveStep(moved);
        CollideStep();
      }
    }
  }

  /** The erase loop of handleCollisions: walks the vector, erasing each
      collected object in place and stepping over the others. */
  method EraseCollected(objects: seq<GameObject>, player: GameObject) returns (objs: seq<GameObject>)
    ensures objs == Survivors(objects, player)
  {
    objs := objects;
    var i := 0;
    ghost var k := 0;
    ghost var kept: seq<GameObject> := [];
    while i < |objs|
      invariant 0 <= k <= |objects|
      invariant kept == Survivors(objects[..k], player)
      invariant objs == kept + objects[k..]
      invariant i == |kept|
      decreases |objs| - i
    {
      SurvivorsSnoc(objects, k, player);
      EraseStep(kept, objects, k);
      if objs[i].kind == COLLECTIBLE && player.IsColliding(objs[i]) {
        objs := objs[..i] + objs[i + 1..];
      } else {
        kept := kept + [objects[k]];
        i := i + 1;
      }
      k := k + 1;
    }
    assert objects[..k] == objects;
  }

  /** Whether rectangle r overlaps an OBSTACLE of objects other than the
      player. */
  predicate Obstructs(objects: seq<GameObject>, player: GameObject, r: Rect)
    reads objects
  {
    exists i :: 0 <= i < |objects| && objects[i] != player && objects[i].kind == OBSTACLE &&
                CheckRectangleCollision(r, objects[i].bounds)
  }

  /** The object loop of update: every non-static object other than the
      player is constrained to the screen; the others keep their bounds. */
  method ConstrainObjects(objects: seq<GameObject>, player: GameObject?, screenWidth: int, screenHeight: int)
    requires Distinct(objects)
    modifies objects`bounds
    ensures forall i :: 0 <= i < |objects| ==>
              objects[i].bounds == if !objects[i].isStatic && objects[i] != player
                                   then ClampInto(old(objects[i].bounds), screenWidth as real, screenHeight as real)
                                   else old(objects[i].bounds)
  {
    var i := 0;
    while i < |objects|
      invariant 0 <= i <= |objects|
      invariant forall k :: 0 <= k < i ==>
                  objects[k].bounds == if !objects[k].isStatic && objects[k] != player
                                       then ClampInto(old(objects[k].bounds), screenWidth as real, screenHeight as real)
                                       else old(objects[k].bounds)
      invariant forall k :: i <= k < |objects| ==> objects[k].bounds == old(objects[k].bounds)
    {
      var obj := objects[i];
      if !obj.isStatic && obj != player {
        obj.ConstrainToBounds(screenWidth, screenHeight);
      }
      i := i + 1;
    }
  }

  /** The enemy loop of updateEnemies: enemy i takes moved[i], clamped
      into the world. */
  method MoveEnemies(enemies: seq<Enemy>, moved: seq<Rect>, worldWidth: real, worldHeight: real)
    requires Distinct(enemies) && |moved| == |enemies|
    modifies enemies`bounds
    ensures forall i :: 0 <= i < |enemies| ==> enemies[i].bounds == ClampInto(moved[i], worldWidth, worldHeight)
  {
    var i := 0;
    while i < |enemies|
      invariant 0 <= i <= |enemies|
      invariant forall k :: 0 <= k < i ==> enemies[k].bounds == ClampInto(moved[k], worldWidth, worldHeight)
    {
      var enemy := enemies[i];
      enemy.bounds := moved[i];
      enemy.bounds := enemy.bounds.(x := Clamp(enemy.bounds.x, worldWidth - enemy.bounds.width));
      enemy.bounds := enemy.bounds.(y := Clamp(enemy.bounds.y, worldHeight - enemy.bounds.height));
      i := i + 1;
    }
  }

  /** The slices the erase loop takes of kept + objects[k..]. */
  lemma EraseStep<T>(kept: seq<T>, objects: seq<T>, k: nat)
    requires k < |objects|
    ensures (kept + objects[k..])[|kept|] == objects[k]
    ensures (kept + objects[k..])[..|kept|] + (kept + objects[k..])[|kept| + 1..] == kept + objects[k + 1..]
    ensures kept + objects[k..] == (kept + [objects[k]]) + objects[k + 1..]
  {
    assert (kept + objects[k..])[..|kept|] == kept;
    assert (kept + objects[k..])[|kept| + 1..] == objects[k + 1..];
  }

  /** handleCollisions never erases a player object. */
  lemma KeepsPlayer(objects: seq<GameObject>, player: GameObject)
    requires player in objects && player.kind != COLLECTIBLE
    ensures player in Survivors(objects, player)
  {
    SurvivorsAreUncollected(objects, player);
  }

  /** The erase loop of handleCollisions exactly as written, from index i:
      after erasing, the player pointer is set to null when the object
      that moved into the erased slot is the player, and the next
      collectible then dereferences that null pointer, which is undefined
      behaviour (None). Yields the objects and the final player pointer. */
  function EraseAsWritten(objects: seq<GameObject>, i: nat, player: GameObject?): (r: Option<(seq<GameObject>, GameObject?)>)
    reads objects, player
    decreases |objects| - i
  {
    if i >= |objects| then Some((objects, player))
    else if objects[i].kind != COLLECTIBLE then EraseAsWritten(objects, i + 1, player)
    else if player == null then None
    else if CheckRectangleCollision(player.bounds, objects[i].bounds) then
      var rest := objects[..i] + objects[i + 1..];
      assert forall o :: o in rest ==> o in objects;
      EraseAsWritten(rest, i, if i < |rest| && rest[i] == player then null else player)
    else EraseAsWritten(objects, i + 1, player)
  }

  /** handleCollisions exactly as written. */
  function HandleCollisionsAsWritten(objects: seq<GameObject>, player: GameObject?): (r: Option<(seq<GameObject>, GameObject?)>)
    reads objects, player
  {
    if player == null then Some((objects, null)) else EraseAsWritten(objects, 0, player)
  }

  /** As written, collecting the object just before the player loses the
      player pointer although the player is still in the world; the
      corrected erase keeps the player. */
  lemma PlayerPointerLostAsWritten(c: GameObject, p: GameObject)
    requires c.kind == COLLECTIBLE && p.kind == PLAYER
    requires CheckRectangleCollision(p.bounds, c.bounds)
    ensures HandleCollisionsAsWritten([c, p], p) == Some(([p], null))
    ensures Survivors([c, p], p) == [p]
  {
    assert [c, p][..0] + [c, p][1..] == [p];
    assert EraseAsWritten([p], 1, null) == Some(([p], null));
    assert EraseAsWritten([p], 0, null) == Some(([p], null));
    assert [c, p][..1] == [c] && [c][..0] == [];
    assert Survivors([c], p) == [];
  }

  /** As written, a further collectible after that dereferences the null
      player pointer. */
  lemma NullDereferenceAsWritten(c: GameObject, p: GameObject, d: GameObject)
    requires c.kind == COLLECTIBLE && d.kind == COLLECTIBLE && p.kind == PLAYER
    requires CheckRectangleCollision(p.bounds, c.bounds)
    ensures HandleCollisionsAsWritten([c, p, d], p) == None
  {
    assert [c, p, d][..0] + [c, p, d][1..] == [p, d];
    assert EraseAsWritten([p, d], 1, null) == None;
    assert EraseAsWritten([p, d], 0, null) == None;
  }

  /** Survivors distributes over concatenation. */
  lemma {:induction false} SurvivorsAppend(a: seq<GameObject>, b: seq<GameObject>, player: GameObject)
    ensures Survivors(a + b, player) == Survivors(a, player) + Survivors(b, player)
  {
    if b == [] {
      assert a + b == a;
    } else {
      var init := b[..|b| - 1];
      SurvivorsAppend(a, init, player);
      assert (a + b)[..|a + b| - 1] == a + init;
    }
  }

  /** Survivors of a sequence with a first element. */
  lemma SurvivorsCons(x: GameObject, rest: seq<GameObject>, player: GameObject)
    ensures Survivors([x] + rest, player) == (if Collected(x, player) then [] else [x]) + Survivors(rest, player)
  {
    SurvivorsAppend([x], rest, player);
    assert [x][..0] == [];
  }

  /** What the erase loop as written yields from index i on, once the
      player is behind the index: the objects before i, then the
      survivors of the rest, with the player pointer kept. */
  ghost predicate ErasesAsCorrected(objects: seq<GameObject>, i: nat, player: GameObject)
    requires i <= |objects|
    reads objects, player
  {
    EraseAsWritten(objects, i, player) == Some((objects[..i] + Survivors(objects[i..], player), player))
  }

  /** The loop as written steps over an object it does not collect. */
  lemma EraseKeepStep(objects: seq<GameObject>, i: nat, player: GameObject)
    requires i < |objects| && !Collected(objects[i], player)
    requires ErasesAsCorrected(objects, i + 1, player)
    ensures ErasesAsCorrected(objects, i, player)
  {
    var x := objects[i];
    assert objects[i..] == [x] + objects[i + 1..];
    SurvivorsCons(x, objects[i + 1..], player);
    var tail := Survivors(objects[i + 1..], player);
    assert objects[..i + 1] + tail == objects[..i] + ([x] + tail) by {
      assert objects[..i + 1] == objects[..i] + [x];
    }
  }

  /** The loop as written erases a collected object and, with the player
      behind the index, keeps the player pointer. */
  lemma EraseDropStep(objects: seq<GameObject>, i: nat, player: GameObject)
    requires i < |objects| && Collected(objects[i], player) && player !in objects[i..]
    requires ErasesAsCorrected(objects[..i] + objects[i + 1..], i, player)
    ensures ErasesAsCorrected(objects, i, player)
  {
    var x := objects[i];
    var rest := objects[..i] + objects[i + 1..];
    assert rest[..i] == objects[..i] && rest[i..] == objects[i + 1..];
    if i < |rest| {
      assert rest[i] == objects[i + 1] && objects[i + 1] in objects[i..];
    }
    assert !(i < |rest| && rest[i] == player);
    assert EraseAsWritten(objects, i, player) == EraseAsWritten(rest, i, player);
    assert objects[i..] == [x] + objects[i + 1..];
    SurvivorsCons(x, objects[i + 1..], player);
    assert Survivors(objects[i..], player) == Survivors(rest[i..], player);
  }

  /** Once the player is behind the loop index, the loop as written erases
      exactly what the corrected one does and keeps the player pointer. */
  lemma {:induction false} EraseAsWrittenBehindPlayer(objects: seq<GameObject>, i: nat, player: GameObject)
    requires i <= |objects| && player !in objects[i..]
    ensures ErasesAsCorrected(objects, i, player)
    decreases |objects| - i
  {
    if i == |objects| {
      assert objects[..i] == objects && objects[i..] == [];
      assert Survivors(objects[i..], player) == [];
      assert objects[..i] + Survivors(objects[i..], player) == objects;
    } else if Collected(objects[i], player) {
      var rest := objects[..i] + objects[i + 1..];
      assert rest[i..] == objects[i + 1..] == objects[i..][1..];
      EraseAsWrittenBehindPlayer(rest, i, player);
      EraseDropStep(objects, i, player);
    } else {
      assert objects[i + 1..] == objects[i..][1..];
      EraseAsWrittenBehindPlayer(objects, i + 1, player);
      EraseKeepStep(objects, i, player);
    }
  }

  /** In a world whose first object is the player and that holds it once,
      as initialize builds it, the code as written agrees with the
      corrected erase. */
  lemma PlayerFirstAgrees(objects: seq<GameObject>, player: GameObject)
    requires |objects| > 0 && objects[0] == player && player.kind == PLAYER && player !in objects[1..]
    ensures HandleCollisionsAsWritten(objects, player) == Some((Survivors(objects, player), player))
  {
    EraseAsWrittenBehindPlayer(objects, 1, player);
    assert objects == [player] + objects[1..];
    SurvivorsCons(player, objects[1..], player);
    assert objects[..1] == [player];
  }
}
