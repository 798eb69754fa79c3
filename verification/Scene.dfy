// A scene: a definition, the world built from it while the scene is
// loaded, the loaded/active flags and the completion latch. The world is
// owned by the scene (a unique_ptr in the engine), so it exists exactly
// while the scene is loaded.

module Scenes {
  import opened Objects
  import opened GameStates
  import opened SceneData
  import opened Worlds

  /** The objects built for a definition's obstacles, in order. */
  ghost predicate ObstaclesBuilt(objs: seq<GameObject>, data: seq<ObstacleData>)
    reads objs
  {
    |objs| == |data| &&
    forall i :: 0 <= i < |data| ==>
      && objs[i].bounds == Rect(data[i].x, data[i].y, data[i].width, data[i].height)
      && objs[i].kind == OBSTACLE && objs[i].isStatic && objs[i].color == data[i].color
  }

  /** The objects built for a definition's collectibles, in order. */
  ghost predicate CollectiblesBuilt(objs: seq<GameObject>, data: seq<CollectibleData>)
    reads objs
  {
    |objs| == |data| &&
    forall i :: 0 <= i < |data| ==>
      && objs[i].bounds == Rect(data[i].x, data[i].y, 30.0, 30.0)
      && objs[i].kind == COLLECTIBLE && objs[i].isStatic && objs[i].color == data[i].color
  }

  /** The enemies built for a definition's enemies, in order: speed and
      pattern from the data, patrol points only for a patrolling enemy and
      the circle only for a circling one. */
  ghost predicate EnemiesBuilt(es: seq<Enemy>, data: seq<EnemyData>)
    reads es
  {
    |es| == |data| && forall i :: 0 <= i < |data| ==> EnemyBuilt(es[i], data[i])
  }

  /** One enemy as createEnemies makes it from its record. */
  ghost predicate EnemyBuilt(e: Enemy, data: EnemyData)
    reads e
  {
    && e.bounds == Rect(data.x, data.y, 40.0, 40.0) && e.kind == ENEMY
    && e.movementPattern == data.pattern && e.movementSpeed == data.speed
    && (data.pattern == PATROL ==> e.patrolPointA == data.patrolPoint1 && e.patrolPointB == data.patrolPoint2)
    && (data.pattern == CIRCULAR ==> e.circleCenter == Vec2(data.x, data.y) && e.circleRadius == data.radius)
  }

  /** createObstacles: one static obstacle per record, coloured as the
      record says, appended after the objects already there. */
  method CreateObstacles(world: GameWorld, obstacles: seq<ObstacleData>) returns (ghost built: seq<GameObject>)
    requires world.Valid()
    modifies world`gameObjects
    ensures world.Valid()
    ensures world.gameObjects == old(world.gameObjects) + built
    ensures ObstaclesBuilt(built, obstacles)
    ensures forall o :: o in built ==> fresh(o)
  {
    built := [];
    var i := 0;
    while i < |obstacles|
      invariant 0 <= i <= |obstacles|
      invariant world.Valid()
      invariant world.gameObjects == old(world.gameObjects) + built
      invariant ObstaclesBuilt(built, obstacles[..i])
      invariant forall o :: o in built ==> fresh(o)
    {
      var o := obstacles[i];
      var obj := world.CreateObstacle(o.x, o.y, o.width, o.height);
      obj.color := o.color;
      built := built + [obj];
      i := i + 1;
    }
    assert obstacles[..i] == obstacles;
  }

  /** createCollectibles: one static 30x30 collectible per record,
      coloured as the record says, appended after the objects already
      there. */
  method CreateCollectibles(world: GameWorld, collectibles: seq<CollectibleData>) returns (ghost built: seq<GameObject>)
    requires world.Valid()
    modifies world`gameObjects
    ensures world.Valid()
    ensures world.gameObjects == old(world.gameObjects) + built
    ensures CollectiblesBuilt(built, collectibles)
    ensures forall o :: o in built ==> fresh(o)
  {
    built := [];
    var i := 0;
    while i < |collectibles|
      invariant 0 <= i <= |collectibles|
      invariant world.Valid()
      invariant world.gameObjects == old(world.gameObjects) + built
      invariant CollectiblesBuilt(built, collectibles[..i])
      invariant forall o :: o in built ==> fresh(o)
    {
      var c := collectibles[i];
      var obj := world.CreateCollectible(c.x, c.y);
      obj.color := c.color;
      built := built + [obj];
      i := i + 1;
    }
    assert collectibles[..i] == collectibles;
  }

  /** createEnemies: one enemy per record with its speed; a patrolling
      enemy gets the record's patrol points and a circling one circles its
      position with the record's radius. */
  method CreateEnemies(world: GameWorld, enemies: seq<EnemyData>)
    requires world.Valid() && world.enemies == []
    modifies world`enemies
    ensures world.Valid()
    ensures EnemiesBuilt(world.enemies, enemies)
    ensures forall e :: e in world.enemies ==> fresh(e)
  {
    var i := 0;
    while i < |enemies|
      invariant 0 <= i <= |enemies|
      invariant world.Valid()
      invariant EnemiesBuilt(world.enemies, enemies[..i])
      invariant forall e :: e in world.enemies ==> fresh(e)
    {
      var enemy := AddEnemy(world, enemies[i]);
      assert enemies[..i + 1] == enemies[..i] + [enemies[i]];
      i := i + 1;
    }
    assert enemies[..i] == enemies;
  }

  /** The body of the createEnemies loop: one enemy appended, set up from
      its record. */
  method AddEnemy(world: GameWorld, data: EnemyData) returns (enemy: Enemy)
    requires world.Valid()
    modifies world`enemies
    ensures world.Valid() && fresh(enemy) && world.enemies == old(world.enemies) + [enemy]
    ensures EnemyBuilt(enemy, data)
  {
    enemy := world.CreateEnemy(data.x, data.y, data.pattern);
    enemy.SetMovementSpeed(data.speed);
    if data.pattern == PATROL {
      enemy.SetPatrolMovement(data.patrolPoint1, data.patrolPoint2);
    }
    if data.pattern == CIRCULAR {
      enemy.SetCircularMovement(Vec2(data.x, data.y), data.radius);
    }
  }

  /** The world loadScene builds for a definition: the screen size, the
      camera settings, no player pointer (createPlayer does not set it),
      the player object first, then the obstacles, then the collectibles,
      and the enemies; the game is PLAYING. */
  ghost predicate Built(world: GameWorld, d: SceneDefinition, width: int, height: int)
    reads world, world.gameObjects, world.enemies, world.gameState
  {
    Configured(world, d, width, height) && Populated(world, d)
  }

  /** The settings part of a built world: the screen size, the camera
      settings of the definition, no player pointer and
      a game that is being played. */
  ghost predicate Configured(world: GameWorld, d: SceneDefinition, width: int, height: int)
    reads world`screenWidth, world`screenHeight, world`cameraFollowSpeed, world`cameraFollowEnabled
    reads world`player, world.gameState
  {
    && world.screenWidth == width && world.screenHeight == height
    && world.cameraFollowSpeed == d.camera.followSpeed && world.cameraFollowEnabled == d.camera.followEnabled
    && world.player == null
    && world.gameState.currentState == PLAYING
  }

  /** The objects part of a built world: the player square at the spawn
      point, then one object per obstacle and per collectible, and one
      enemy per enemy record, in the definition's order. */
  ghost predicate Populated(world: GameWorld, d: SceneDefinition)
    reads world, world.gameObjects, world.enemies
  {
    var n := |d.obstacles|;
    && world.Valid()
    && |world.gameObjects| == 1 + n + |d.collectibles|
    && world.gameObjects[0].bounds == Rect(d.playerSpawn.x, d.playerSpawn.y, 50.0, 50.0)
    && world.gameObjects[0].kind == PLAYER && !world.gameObjects[0].isStatic
    && ObstaclesBuilt(world.gameObjects[1..1 + n], d.obstacles)
    && CollectiblesBuilt(world.gameObjects[1 + n..], d.collectibles)
    && EnemiesBuilt(world.enemies, d.enemies)
  }

  /** A built world holds one COLLECTIBLE object per collectible of the
      definition: the count the completion rule starts from. */
  lemma {:induction false} BuiltCollectibleCount(world: GameWorld, d: SceneDefinition, width: int, height: int)
    requires Built(world, d, width, height)
    ensures CountKind(world.gameObjects, COLLECTIBLE) == |d.collectibles|
    ensures |world.enemies| == |d.enemies|
  {
    var objs := world.gameObjects;
    var n := 1 + |d.obstacles|;
    CountNone(objs[..n], COLLECTIBLE);
    CountAll(objs[n..], COLLECTIBLE);
    CountKindAppend(objs[..n], objs[n..], COLLECTIBLE);
    assert objs[..n] + objs[n..] == objs;
  }

  /** The counting loop of isSceneComplete. */
  method CountCollectibles(objects: seq<GameObject>) returns (n: nat)
    ensures n == CountKind(objects, COLLECTIBLE)
  {
    n := 0;
    var i := 0;
    while i < |objects|
      invariant 0 <= i <= |objects|
      invariant n == CountKind(objects[..i], COLLECTIBLE)
    {
      assert objects[..i + 1][..i] == objects[..i];
      if objects[i].kind == COLLECTIBLE {
        n := n + 1;
      }
      i := i + 1;
    }
    assert objects[..i] == objects;
  }

  /** The world-building part of loadScene: a fresh world emptied to the
      screen size, the camera settings applied, then the player, the
      obstacles, the collectibles and the enemies created. The world keeps
      its default size: applySceneSettings has no setter for the
      definition's. */
  method BuildWorld(d: SceneDefinition, screenWidth: int, screenHeight: int) returns (world: GameWorld)
    ensures fresh(world) && fresh(world.gameState)
    ensures forall o :: o in world.gameObjects ==> fresh(o)
    ensures forall e :: e in world.enemies ==> fresh(e)
    ensures Built(world, d, screenWidth, screenHeight) && !world.hasAudioManager
    ensures world.worldWidth == 2000.0 && world.worldHeight == 1500.0
  {
    world := new GameWorld();
    Configure(world, d, screenWidth, screenHeight);
    // createSceneObjects
    Populate(world, d);
  }

  /** initializeEmpty followed by applySceneSettings: an empty world at the
      screen size with the definition's camera settings; everything else
      is kept. */
  method Configure(world: GameWorld, d: SceneDefinition, screenWidth: int, screenHeight: int)
    requires world.gameState.currentState == PLAYING
    modifies world`screenWidth, world`screenHeight, world`gameObjects, world`enemies, world`player
    modifies world`cameraFollowSpeed, world`cameraFollowEnabled
    ensures world.Valid() && world.gameObjects == [] && world.enemies == []
    ensures Configured(world, d, screenWidth, screenHeight)
  {
    world.InitializeEmpty(screenWidth, screenHeight);
    world.SetCameraFollowSpeed(d.camera.followSpeed);
    world.EnableCameraFollow(d.camera.followEnabled);
  }

  /** createSceneObjects on an empty world: the player, the obstacles, the
      collectibles and the enemies, in that order. */
  method Populate(world: GameWorld, d: SceneDefinition)
    requires world.Valid() && world.gameObjects == [] && world.enemies == []
    modifies world`gameObjects, world`enemies
    ensures forall o :: o in world.gameObjects ==> fresh(o)
    ensures forall e :: e in world.enemies ==> fresh(e)
    ensures Populated(world, d)
  {
    var player := world.CreatePlayer(d.playerSpawn.x, d.playerSpawn.y);
    ghost var obstacles := CreateObstacles(world, d.obstacles);
    ghost var collectibles := CreateCollectibles(world, d.collectibles);
    CreateEnemies(world, d.enemies);
    assert world.gameObjects == [player] + obstacles + collectibles;
    assert world.gameObjects[1..1 + |d.obstacles|] == obstacles;
    assert world.gameObjects[1 + |d.obstacles|..] == collectibles;
  }

  class Scene {
    var definition: SceneDefinition
    var isLoaded: bool
    var isActive: bool
    var gameWorld: GameWorld?
    var initialCollectibleCount: int
    var initialEnemyCount: int
    var completionTriggered: bool

    /** The world exists exactly while the scene is loaded, and only a
        loaded scene is active. */
    ghost predicate Valid()
      reads this, gameWorld
    {
      Wired() && (gameWorld != null ==> gameWorld.Valid())
    }

    /** The scene's own flags agree with its world: it has a world exactly
        when it is loaded, and only a loaded scene is active. */
    ghost predicate Wired()
      reads this
    {
      && (isLoaded <==> gameWorld != null)
      && (isActive ==> isLoaded)
    }

    /** Scene(definition): not loaded, not active, no world. */
    constructor (d: SceneDefinition)
      ensures Valid()
      ensures definition == d && !isLoaded && !isActive && gameWorld == null
      ensures initialCollectibleCount == 0 && initialEnemyCount == 0 && !completionTriggered
    {
      definition := d;
      isLoaded := false;
      isActive := false;
      gameWorld := null;
      initialCollectibleCount := 0;
      initialEnemyCount := 0;
      completionTriggered := false;
    }

    /** loadScene: a loaded scene is left as it is; otherwise a fresh world
        is built from the definition, the initial counts are taken from
        the definition and the completion latch is reset. The tile-map
        setup has no effect in the engine. */
    method LoadScene(screenWidth: int, screenHeight: int) returns (ok: bool)
      requires Valid()
      modifies this
      ensures ok && Valid() && isLoaded
      ensures old(isLoaded) ==> unchanged(this)
      ensures !old(isLoaded) ==>
        && definition == old(definition) && !isActive
        && fresh(gameWorld) && fresh(gameWorld.gameState)
        && (forall o :: o in gameWorld.gameObjects ==> fresh(o))
        && (forall e :: e in gameWorld.enemies ==> fresh(e))
        && Built(gameWorld, definition, screenWidth, screenHeight) && !gameWorld.hasAudioManager
        && initialCollectibleCount == |definition.collectibles|
        && initialEnemyCount == |definition.enemies|
        && !completionTriggered
    {
      if isLoaded {
        return true;
      }
      var world := BuildWorld(definition, screenWidth, screenHeight);
      gameWorld := world;
      initialCollectibleCount := |definition.collectibles|;
      initialEnemyCount := |definition.enemies|;
      completionTriggered := false;
      isLoaded := true;
      return true;
    }

    /** unloadScene: nothing when not loaded; otherwise the scene becomes
        inactive and unloaded and its world is dropped. */
    method UnloadScene()
      modifies this`isActive, this`gameWorld, this`isLoaded
      ensures !old(isLoaded) ==> isActive == old(isActive) && gameWorld == old(gameWorld) && !isLoaded
      ensures old(isLoaded) ==> !isActive && gameWorld == null && !isLoaded
      ensures old(Wired()) ==> Valid()
    {
      if !isLoaded {
        return;
      }
      isActive := false;
      gameWorld := null;
      isLoaded := false;
    }

    /** activateScene: only a loaded scene becomes active. */
    method ActivateScene()
      modifies this`isActive
      ensures isActive == (old(isActive) || isLoaded)
      ensures old(Valid()) ==> Valid()
      ensures old(Wired()) ==> Wired()
    {
      if !isLoaded {
        return;
      }
      isActive := true;
    }

    method DeactivateScene()
      modifies this`isActive
      ensures !isActive
      ensures old(Valid()) ==> Valid()
      ensures old(Wired()) ==> Wired()
    {
      isActive := false;
    }

    /** The completion rule of isSceneComplete, as a function of the
        state. */
    ghost predicate Complete()
      reads this, gameWorld
    {
      && isLoaded && gameWorld != null
      && (|| (definition.transitionTrigger == CollectiblesComplete
              && CountKind(gameWorld.gameObjects, COLLECTIBLE) == 0)
          || (definition.transitionTrigger == EnemiesDefeat && gameWorld.enemies == []))
    }

    /** isSceneComplete: false unless loaded; with collectibles_complete,
        true exactly when no COLLECTIBLE object is left; with
        enemies_defeat, true exactly when no enemy is left; with manual or
        any other trigger, false. */
    method IsSceneComplete() returns (b: bool)
      requires Wired()
      ensures b == Complete()
      ensures b <==> (isLoaded &&
        (|| (definition.transitionTrigger == CollectiblesComplete
             && forall o :: o in gameWorld.gameObjects ==> o.kind != COLLECTIBLE)
         || (definition.transitionTrigger == EnemiesDefeat && gameWorld.enemies == [])))
    {
      if !isLoaded || gameWorld == null {
        return false;
      }
      var trigger := definition.transitionTrigger;
      CountKindZero(gameWorld.gameObjects, COLLECTIBLE);
      if trigger == CollectiblesComplete {
        var currentCollectibles := CountCollectibles(gameWorld.gameObjects);
        return currentCollectibles == 0;
      } else if trigger == EnemiesDefeat {
        return |gameWorld.enemies| == 0;
      } else if trigger == Manual {
        return false;
      }
      return false;
    }

    /** The objects update may change: the scene's latch and the world's
        state, objects and enemies. */
    ghost function Footprint(): set<object>
      reads this, gameWorld
    {
      if gameWorld == null then {}
      else {gameWorld, gameWorld.gameState} + (set o | o in gameWorld.gameObjects) + (set e | e in gameWorld.enemies)
    }

    /** update: nothing unless loaded and active; otherwise the world
        advances (see Advance). The latch never goes back to false. */
    method Update(deltaTime: real, moved: seq<Rect>)
      requires Valid() && (gameWorld != null ==> |moved| == |gameWorld.enemies|)
      modifies this`completionTriggered, Footprint()
      ensures Valid()
      ensures !old(isLoaded && isActive) ==> completionTriggered == old(completionTriggered)
      ensures !old(isLoaded && isActive) ==> unchanged(old(Footprint()))
      ensures old(isLoaded && isActive) ==> completionTriggered == (old(completionTriggered) || Complete())
      ensures old(isLoaded && isActive) && old(gameWorld.gameState.currentState) == PLAYING ==>
        var world := gameWorld;
        && world.gameObjects == (if world.player == null then old(world.gameObjects) else Survivors(old(world.gameObjects), world.player))
        && world.gameState.currentState == (if world.TouchesEnemy() then GAME_OVER else PLAYING)
        && world.enemies == old(gameWorld.enemies)
        && (forall i :: 0 <= i < |world.enemies| ==> world.enemies[i].bounds == ClampInto(moved[i], world.worldWidth, world.worldHeight))
        && world.player == old(gameWorld.player)
        && (world.player != null ==> world.player.bounds == ClampInto(old(world.player.bounds), world.worldWidth, world.worldHeight))
        && (forall o :: o in old(world.gameObjects) && o != world.player && !o.isStatic ==>
              o.bounds == ClampInto(old(o.bounds), world.screenWidth as real, world.screenHeight as real))
        && (forall o :: o in old(world.gameObjects) && o != world.player && o.isStatic ==> o.bounds == old(o.bounds))
        && world.gameState.gameOverTime == (if world.TouchesEnemy() then 0.0 else old(world.gameState.gameOverTime))
      ensures old(isLoaded && isActive) && old(gameWorld.gameState.currentState) != PLAYING ==>
        && gameWorld.gameObjects == old(gameWorld.gameObjects)
        && gameWorld.gameState.currentState == old(gameWorld.gameState.currentState)
        && gameWorld.enemies == old(gameWorld.enemies)
        && (forall o :: o in old(gameWorld.gameObjects) ==> o.bounds == old(o.bounds))
        && (forall e :: e in old(gameWorld.enemies) ==> e.bounds == old(e.bounds))
        && gameWorld.gameState.gameOverTime == (if old(gameWorld.gameState.currentState) == GAME_OVER
                                                then old(gameWorld.gameState.gameOverTime) + deltaTime
                                                else old(gameWorld.gameState.gameOverTime))
      ensures old(completionTriggered) ==> completionTriggered
    {
      if !isLoaded || !isActive || gameWorld == null {
        return;
      }
      Advance(deltaTime, moved);
    }

    /** The body of update for a loaded, active scene: the world advances
        (with `moved`, the enemies' new bounds, standing in for their
        motion) as GameWorld.Update states, and the completion latch is set
        once the scene is complete. */
    method Advance(deltaTime: real, moved: seq<Rect>)
      requires Valid() && isLoaded && isActive && |moved| == |gameWorld.enemies|
      modifies this`completionTriggered, gameWorld.gameState, gameWorld`gameObjects
      modifies gameWorld.gameObjects`bounds, gameWorld.enemies`bounds
      ensures Valid()
      ensures completionTriggered == (old(completionTriggered) || Complete())
      ensures old(gameWorld.gameState.currentState) == PLAYING ==>
        var world := gameWorld;
        && world.gameObjects == (if world.player == null then old(world.gameObjects) else Survivors(old(world.gameObjects), world.player))
        && world.gameState.currentState == (if world.TouchesEnemy() then GAME_OVER else PLAYING)
        && world.enemies == old(gameWorld.enemies)
        && (forall i :: 0 <= i < |world.enemies| ==> world.enemies[i].bounds == ClampInto(moved[i], world.worldWidth, world.worldHeight))
        && (world.player != null ==> world.player.bounds == ClampInto(old(world.player.bounds), world.worldWidth, world.worldHeight))
        && (forall o :: o in old(world.gameObjects) && o != world.player && !o.isStatic ==>
              o.bounds == ClampInto(old(o.bounds), world.screenWidth as real, world.screenHeight as real))
        && (forall o :: o in old(world.gameObjects) && o != world.player && o.isStatic ==> o.bounds == old(o.bounds))
        && world.gameState.gameOverTime == (if world.TouchesEnemy() then 0.0 else old(world.gameState.gameOverTime))
      ensures old(gameWorld.gameState.currentState) != PLAYING ==>
        && gameWorld.gameObjects == old(gameWorld.gameObjects)
        && gameWorld.gameState.currentState == old(gameWorld.gameState.currentState)
        && (forall o :: o in gameWorld.gameObjects ==> o.bounds == old(o.bounds))
        && (forall e :: e in gameWorld.enemies ==> e.bounds == old(e.bounds))
        && gameWorld.gameState.gameOverTime == (if old(gameWorld.gameState.currentState) == GAME_OVER
                                                then old(gameWorld.gameState.gameOverTime) + deltaTime
                                                else old(gameWorld.gameState.gameOverTime))
    {
      gameWorld.Update(deltaTime, moved);
      Latch();
    }

    /** The completion latch: set once the scene is complete, and never
        cleared. */
    method Latch()
      requires Wired()
      modifies this`completionTriggered
      ensures completionTriggered == (old(completionTriggered) || Complete())
    {
      if !completionTriggered {
        var complete := IsSceneComplete();
        if complete {
          completionTriggered := true;
        }
      }
    }

    /** setDefinition: the definition is replaced; a loaded scene is
        unloaded and loaded again at 800x600, ending inactive. */
    method SetDefinition(d: SceneDefinition)
      requires Valid()
      modifies this
      ensures Valid() && definition == d && isLoaded == old(isLoaded)
      ensures !old(isLoaded) ==> isActive == old(isActive) && gameWorld == old(gameWorld)
      ensures old(isLoaded) ==>
        && !isActive && fresh(gameWorld) && Built(gameWorld, d, 800, 600)
        && initialCollectibleCount == |d.collectibles| && initialEnemyCount == |d.enemies|
        && !completionTriggered
    {
      definition := d;
      if isLoaded {
        var currentWidth := 800;
        var currentHeight := 600;
        UnloadScene();
        var ok := LoadScene(currentWidth, currentHeight);
      }
    }

    /** setAudioManager: passed on to the world when there is one. */
    method SetAudioManager(present: bool)
      modifies gameWorld
      ensures gameWorld != null ==> gameWorld.hasAudioManager == present && gameWorld.SameExceptAudio()
      ensures old(Valid()) ==> Valid()
    {
      if gameWorld != null {
        gameWorld.SetAudioManager(present);
      }
    }

    /** updateScreenSize: passed on to the world when there is one. */
    method UpdateScreenSize(width: int, height: int)
      modifies gameWorld
      ensures gameWorld != null ==> gameWorld.screenWidth == width && gameWorld.screenHeight == height
    {
      if gameWorld != null {
        gameWorld.UpdateScreenSize(width, height);
      }
    }
  }
}
