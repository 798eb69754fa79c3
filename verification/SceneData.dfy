// The plain data a scene is built from: spawn point, obstacle, collectible
// and enemy records, camera, world and tile-map settings, the scene
// definition itself and the transition description. Each C++ constructor
// with default arguments becomes a function whose parameters are the
// arguments a caller may give; the defaults are filled in by the body.

module SceneData {
  import opened Objects

  datatype PlayerSpawn = PlayerSpawn(x: real, y: real)

  datatype ObstacleData = ObstacleData(x: real, y: real, width: real, height: real, color: Color)

  datatype CollectibleData = CollectibleData(x: real, y: real, color: Color)

  datatype EnemyData = EnemyData(x: real, y: real, pattern: MovementPattern, speed: real,
                                 patrolPoint1: Vec2, patrolPoint2: Vec2, radius: real)

  datatype CameraSettings = CameraSettings(followSpeed: real, followEnabled: bool, startPosition: Vec2)

  datatype WorldSettings = WorldSettings(width: real, height: real, backgroundColor: Color,
                                         backgroundMusic: string)

  datatype TilemapSettings = TilemapSettings(tilesetName: string, tileData: seq<seq<int>>,
                                             tileWidth: int, tileHeight: int, enabled: bool)

  datatype SceneDefinition = SceneDefinition(
    name: string,
    description: string,
    world: WorldSettings,
    camera: CameraSettings,
    tilemap: TilemapSettings,
    playerSpawn: PlayerSpawn,
    obstacles: seq<ObstacleData>,
    collectibles: seq<CollectibleData>,
    enemies: seq<EnemyData>,
    nextScene: string,
    transitionTrigger: string)

  datatype TransitionType = INSTANT | FADE_TO_BLACK | SLIDE_LEFT | SLIDE_RIGHT | SLIDE_UP | SLIDE_DOWN

  datatype SceneTransition = SceneTransition(transitionType: TransitionType, duration: real, fadeColor: Color)

  /** The trigger names a scene can complete on. */
  const CollectiblesComplete := "collectibles_complete"
  const EnemiesDefeat := "enemies_defeat"
  const Manual := "manual"

  /** PlayerSpawn(): the spawn point of a definition that names none. */
  function DefaultSpawn(): PlayerSpawn
  {
    PlayerSpawn(100.0, 100.0)
  }

  /** ObstacleData(x, y, w, h): the red obstacle colour. */
  function NewObstacle(x: real, y: real, w: real, h: real): ObstacleData
  {
    ObstacleData(x, y, w, h, Color(0.8, 0.2, 0.2, 1.0))
  }

  /** ObstacleData(x, y): a 50 x 50 obstacle. */
  function NewSquareObstacle(x: real, y: real): ObstacleData
  {
    NewObstacle(x, y, 50.0, 50.0)
  }

  /** CollectibleData(x, y): the yellow collectible colour. */
  function NewCollectible(x: real, y: real): CollectibleData
  {
    CollectibleData(x, y, Color(1.0, 1.0, 0.0, 1.0))
  }

  /** EnemyData(x, y, pattern, speed): patrol points 100 to either side of
      the position, circle radius 50. */
  function NewEnemy(x: real, y: real, pattern: MovementPattern, speed: real): (e: EnemyData)
    ensures e.x == x && e.y == y && e.pattern == pattern && e.speed == speed
    ensures e.patrolPoint1.y == y == e.patrolPoint2.y
    ensures e.patrolPoint1.x + e.patrolPoint2.x == 2.0 * x
    ensures e.patrolPoint2.x - e.patrolPoint1.x == 200.0
    ensures e.radius > 0.0
  {
    EnemyData(x, y, pattern, speed, Vec2(x - 100.0, y), Vec2(x + 100.0, y), 50.0)
  }

  /** EnemyData(): a horizontal enemy of speed 100 at the origin. */
  function DefaultEnemy(): EnemyData
  {
    NewEnemy(0.0, 0.0, HORIZONTAL, 100.0)
  }

  /** CameraSettings(): follow at speed 5, starting at the origin. */
  function DefaultCamera(): CameraSettings
  {
    CameraSettings(5.0, true, Vec2(0.0, 0.0))
  }

  /** WorldSettings(): 2000 x 1500, dark blue background, no music. */
  function DefaultWorld(): WorldSettings
  {
    WorldSettings(2000.0, 1500.0, Color(0.1, 0.1, 0.15, 1.0), "")
  }

  /** TilemapSettings(): disabled, 64 x 64 tiles, no tileset, no tiles. */
  function DefaultTilemap(): TilemapSettings
  {
    TilemapSettings("", [], 64, 64, false)
  }

  /** SceneDefinition(name): default settings, no objects, no successor,
      completed manually. */
  function NewDefinition(name: string): SceneDefinition
  {
    SceneDefinition(name, "", DefaultWorld(), DefaultCamera(), DefaultTilemap(), DefaultSpawn(),
                    [], [], [], "", Manual)
  }

  /** SceneDefinition(): the definition a scene file is read into. */
  function DefaultDefinition(): SceneDefinition
  {
    NewDefinition("Untitled Scene")
  }

  /** SceneTransition(): a one-second fade to black. */
  function DefaultTransition(): SceneTransition
  {
    SceneTransition(FADE_TO_BLACK, 1.0, Color(0.0, 0.0, 0.0, 1.0))
  }

  /** What the defaults promise to the code that consumes them: a default
      definition is named, has a positive world inside which its spawn
      point lies, a positive camera speed, no objects and no successor and
      completes only manually; the default tile map is off; the default
      transition is a timed fade. */
  lemma DefaultsAreUsable(name: string)
    ensures var d := NewDefinition(name);
      && d.name == name && d.description == "" && d.nextScene == ""
      && d.transitionTrigger == Manual
      && d.obstacles == [] && d.collectibles == [] && d.enemies == []
      && 0.0 < d.world.width && 0.0 < d.world.height && d.world.backgroundMusic == ""
      && 0.0 <= d.playerSpawn.x <= d.world.width && 0.0 <= d.playerSpawn.y <= d.world.height
      && 0.0 < d.camera.followSpeed && d.camera.followEnabled
      && !d.tilemap.enabled && d.tilemap.tileWidth == d.tilemap.tileHeight == 64
    ensures DefaultDefinition().name != ""
    ensures DefaultTransition().transitionType != INSTANT && DefaultTransition().duration > 0.0
  {
  }
}
