// The scene manager: the scenes loaded under their names, the current
// scene, the scene a transition is heading for, the transition in
// progress, the screen size scenes are built at and whether an audio
// manager is attached. Scenes are owned by the manager (unique_ptr in the
// engine); `currentScene` and `nextScene` are plain pointers into it.

module SceneManagement {
  import opened Common
  import opened Objects
  import opened SceneData
  import opened SceneFiles
  import opened Worlds
  import opened Scenes

  /** validateSceneDefinition: a scene needs a name and a world of positive
      width and height. */
  predicate ValidDefinition(d: SceneDefinition)
  {
    d.name != [] && !(d.world.width <= 0.0 || d.world.height <= 0.0)
  }

  /** createDefaultScene: a definition named `name` with two obstacles, two
      collectibles, a horizontal and a vertical enemy, completed by picking
      up every collectible. */
  function CreateDefaultScene(name: string): SceneDefinition
  {
    NewDefinition(name).(
      description := "Default scene created by SceneManager",
      obstacles := [NewObstacle(300.0, 200.0, 80.0, 80.0), NewObstacle(500.0, 300.0, 60.0, 120.0)],
      collectibles := [NewCollectible(450.0, 150.0), NewCollectible(150.0, 250.0)],
      enemies := [NewEnemy(400.0, 300.0, HORIZONTAL, 100.0), NewEnemy(700.0, 450.0, VERTICAL, 100.0)],
      transitionTrigger := CollectiblesComplete)
  }

  /** A default scene is accepted exactly when it is named; it completes on
      its collectibles, its successor is empty, its obstacles neither touch
      each other nor the player's spawn square, and every object lies
      inside its world. */
  lemma DefaultSceneIsUsable(name: string)
    ensures ValidDefinition(CreateDefaultScene(name)) <==> name != []
    ensures var d := CreateDefaultScene(name);
      && d.name == name && d.transitionTrigger == CollectiblesComplete && d.nextScene == []
      && |d.obstacles| == 2 && |d.collectibles| == 2 && |d.enemies| == 2
      && !CheckRectangleCollision(ObstacleRect(d.obstacles[0]), ObstacleRect(d.obstacles[1]))
      && (forall o :: o in d.obstacles ==>
            !CheckRectangleCollision(ObstacleRect(o), Rect(d.playerSpawn.x, d.playerSpawn.y, 50.0, 50.0))
            && 0.0 <= o.x && o.x + o.width <= d.world.width && 0.0 <= o.y && o.y + o.height <= d.world.height)
      && (forall c :: c in d.collectibles ==> 0.0 <= c.x <= d.world.width && 0.0 <= c.y <= d.world.height)
      && (forall e :: e in d.enemies ==> 0.0 <= e.x <= d.world.width && 0.0 <= e.y <= d.world.height)
  {
    var d := CreateDefaultScene(name);
    assert d.obstacles == [NewObstacle(300.0, 200.0, 80.0, 80.0), NewObstacle(500.0, 300.0, 60.0, 120.0)];
  }

  function ObstacleRect(o: ObstacleData): Rect
  {
    Rect(o.x, o.y, o.width, o.height)
  }

  /** The definition loadSceneFromFile hands on: the file read into a
      default definition, with an empty name replaced by the name the
      scene is loaded under. */
  function FileDefinition(sceneName: string, filePath: string, disk: Disk, num: Reader): FileRead
  {
    match ReadDefinitionFile(filePath, disk, num, DefaultDefinition())
    case Read(d) => Read(if d.name == [] then d.(name := sceneName) else d)
    case other => other
  }

  /** A definition saved to a file and loaded from it under any name comes
      back as what loading the saved text gives; a definition saved without
      a name takes the name it is loaded under, and one with a name keeps
      it. */
  lemma SaveThenLoadScene(d: SceneDefinition, sceneName: string, filePath: string, disk: Disk,
                          fmt: Printer, num: Reader, now: int)
    requires Printable(fmt, num) && TextFieldsOneLine(d)
    ensures var written := SaveDefinitionToFile(d, filePath, disk, fmt, true, now).1;
      FileDefinition(sceneName, filePath, written, num) ==
        Read(if d.name == [] then Reloaded(d, fmt, num).(name := sceneName) else Reloaded(d, fmt, num))
    ensures var written := SaveDefinitionToFile(d, filePath, disk, fmt, true, now).1;
      FileDefinition(sceneName, filePath, written, num).Read? &&
      FileDefinition(sceneName, filePath, written, num).def.name == (if d.name == [] then sceneName else d.name)
  {
    SaveThenLoad(d, filePath, disk, fmt, num, now);
  }

  /** unloadScene as the engine writes it, on the map alone: an unknown
      name and the current scene are kept, any other scene is removed. */
  function UnloadedAsWritten(loaded: map<string, Scene>, current: Scene?, name: string): map<string, Scene>
  {
    if name !in loaded || loaded[name] == current then loaded else loaded - {name}
  }

  /** unloadScene as the manager needs it: the scene a transition is heading
      for is kept as well. */
  function Unloaded(loaded: map<string, Scene>, current: Scene?, next: Scene?, name: string): map<string, Scene>
  {
    if name !in loaded || loaded[name] == current || loaded[name] == next then loaded else loaded - {name}
  }

  /** Each scene is stored under one name only. */
  predicate Injective(loaded: map<string, Scene>)
  {
    forall k1, k2 :: k1 in loaded && k2 in loaded && k1 != k2 ==> loaded[k1] != loaded[k2]
  }

  /** As written, unloading the scene a transition is heading for removes it
      while `nextScene` still points at it: that reference dangles, and
      finishing the transition would make the freed scene current. */
  lemma DanglingNextAsWritten(loaded: map<string, Scene>, current: Scene?, next: Scene?, name: string)
    requires Injective(loaded)
    requires name in loaded && loaded[name] == next && next != current
    ensures next != null && next !in UnloadedAsWritten(loaded, current, name).Values
  {
    var after := UnloadedAsWritten(loaded, current, name);
    forall k | k in after
      ensures after[k] != next
    {
      assert k != name;
    }
  }

  /** With the pending scene guarded, every scene the manager points at
      stays loaded, the map only shrinks, and a removed scene is stored
      nowhere else. */
  lemma UnloadedKeepsPointers(loaded: map<string, Scene>, current: Scene?, next: Scene?, name: string)
    requires Injective(loaded)
    ensures var after := Unloaded(loaded, current, next, name);
      && after.Keys <= loaded.Keys && Injective(after)
      && (forall k :: k in after ==> after[k] == loaded[k])
      && (current in loaded.Values ==> current in after.Values)
      && (next in loaded.Values ==> next in after.Values)
      && (name in loaded && after != loaded ==> loaded[name] !in after.Values)
  {
    var after := Unloaded(loaded, current, next, name);
    if name in loaded && after != loaded {
      forall k | k in after
        ensures after[k] != loaded[name]
      {
        assert k != name;
      }
    }
    if current in loaded.Values {
      var k :| k in loaded && loaded[k] == current;
      assert k in after;
    }
    if next in loaded.Values {
      var k :| k in loaded && loaded[k] == next;
      assert k in after;
    }
  }

  /** A scene as the manager stores it: valid, loaded, and active exactly
      when it is the current scene. */
  ghost predicate Stored(s: Scene, current: Scene?)
    reads s
  {
    s.Wired() && s.isLoaded && (s.isActive <==> s == current)
  }

  /** Every scene of the map, and its world, lies in `r`, and is stored as
      the manager stores it. */
  ghost predicate AllStored(loaded: map<string, Scene>, current: Scene?, r: set<Scene>)
    reads r
  {
    forall k :: k in loaded ==>
      loaded[k] in r && Stored(loaded[k], current)
  }

  /** Every scene of the map is unloaded, in the map's iteration order
      (which the model leaves open). */
  method UnloadEach(scenes: map<string, Scene>, ghost r: set<Scene>)
    requires forall k :: k in scenes ==> scenes[k] in r && scenes[k].Wired()
    modifies r
    ensures forall k :: k in scenes ==> !scenes[k].isLoaded && !scenes[k].isActive
  {
    var names := scenes.Keys;
    while names != {}
      invariant names <= scenes.Keys
      invariant forall k :: k in names ==> scenes[k] in r && scenes[k].Wired()
      invariant forall k :: k in scenes && k !in names ==> !scenes[k].isLoaded && !scenes[k].isActive
      modifies r
      decreases names
    {
      var k :| k in names;
      scenes[k].UnloadScene();
      names := names - {k};
    }
  }

  /** The manager's bookkeeping: every stored scene is stored as the
      manager stores it, each one once, and the current and the next scene
      are stored under the names given. */
  ghost predicate Tracks(loaded: map<string, Scene>, current: Scene?, next: Scene?,
                         currentName: string, nextName: string, r: set<Scene>)
    reads r
  {
    && AllStored(loaded, current, r)
    && Injective(loaded)
    && (current != null ==> currentName in loaded && loaded[currentName] == current)
    && (next != null ==> nextName in loaded && loaded[nextName] == next)
  }

  /** A new scene, not the current one and stored as the manager stores
      it, can join the map under a new name. */
  lemma AllStoredAdd(loaded: map<string, Scene>, current: Scene?, r: set<Scene>, name: string, scene: Scene)
    requires AllStored(loaded, current, r) && name !in loaded
    requires Stored(scene, current)
    ensures AllStored(loaded[name := scene], current, r + {scene})
  {
  }

  /** A scene stored nowhere yet keeps the map injective when added. */
  lemma InjectiveAdd(loaded: map<string, Scene>, name: string, scene: Scene)
    requires Injective(loaded) && name !in loaded
    requires forall k :: k in loaded ==> loaded[k] != scene
    ensures Injective(loaded[name := scene])
  {
  }

  /** Adding a new name keeps what every other name maps to. */
  lemma KeepsOtherNames(loaded: map<string, Scene>, name: string, scene: Scene, other: string)
    requires name !in loaded && other in loaded
    ensures other in loaded[name := scene] && loaded[name := scene][other] == loaded[other]
  {
  }

  /** Removing a scene stored once leaves the others stored, without the
      removed scene in the frame. */
  lemma AllStoredRemove(loaded: map<string, Scene>, current: Scene?, r: set<Scene>, name: string)
    requires AllStored(loaded, current, r) && Injective(loaded) && name in loaded
    ensures AllStored(loaded - {name}, current, r - {loaded[name]})
  {
    forall k | k in loaded - {name}
      ensures loaded[k] != loaded[name]
    {
    }
  }

  /** The part of loadSceneFromDefinition that builds the scene: a fresh
      scene loaded from the definition at the given screen size, with the
      audio manager passed on when there is one. */
  method NewLoadedScene(definition: SceneDefinition, screenWidth: int, screenHeight: int, audio: bool)
    returns (scene: Scene)
    ensures fresh(scene) && fresh(scene.gameWorld)
    ensures scene.Valid() && scene.isLoaded && !scene.isActive && scene.definition == definition
    ensures scene.initialCollectibleCount == |definition.collectibles|
    ensures scene.initialEnemyCount == |definition.enemies| && !scene.completionTriggered
    ensures scene.gameWorld.hasAudioManager == audio
  {
    scene := new Scene(definition);
    var loaded := scene.LoadScene(screenWidth, screenHeight);
    if audio {
      scene.SetAudioManager(audio);
    }
  }

  /** The part of restartCurrentScene that rebuilds the scene: unloaded,
      given its own definition again, loaded at the given screen size,
      given the audio manager when there is one, and activated. */
  method Reload(scene: Scene, screenWidth: int, screenHeight: int, audio: bool)
    requires scene.Wired()
    modifies scene
    ensures scene.Valid() && scene.isLoaded && scene.isActive
    ensures scene.definition == old(scene.definition) && fresh(scene.gameWorld)
    ensures Built(scene.gameWorld, scene.definition, screenWidth, screenHeight)
    ensures scene.gameWorld.hasAudioManager == audio
    ensures scene.initialCollectibleCount == |scene.definition.collectibles|
    ensures scene.initialEnemyCount == |scene.definition.enemies| && !scene.completionTriggered
  {
    Rebuild(scene, screenWidth, screenHeight);
    if audio {
      AttachAudio(scene, screenWidth, screenHeight);
    }
    scene.ActivateScene();
  }

  /** Passing the audio manager to a rebuilt scene: its world is still
      the one built from the definition, now with audio attached. */
  method AttachAudio(scene: Scene, screenWidth: int, screenHeight: int)
    requires scene.Valid() && scene.isLoaded
    requires Built(scene.gameWorld, scene.definition, screenWidth, screenHeight)
    modifies scene.gameWorld
    ensures scene.Valid() && scene.gameWorld.hasAudioManager
    ensures Built(scene.gameWorld, scene.definition, screenWidth, screenHeight)
  {
    scene.SetAudioManager(true);
  }

  /** The unload-and-load part of Reload: the scene ends loaded but not
      yet active, with a fresh world built from its own definition. */
  method Rebuild(scene: Scene, screenWidth: int, screenHeight: int)
    requires scene.Wired()
    modifies scene
    ensures scene.Valid() && scene.isLoaded && !scene.isActive
    ensures scene.definition == old(scene.definition) && fresh(scene.gameWorld)
    ensures fresh(scene.gameWorld.gameState)
    ensures forall o :: o in scene.gameWorld.gameObjects ==> fresh(o)
    ensures forall e :: e in scene.gameWorld.enemies ==> fresh(e)
    ensures Built(scene.gameWorld, scene.definition, screenWidth, screenHeight)
    ensures !scene.gameWorld.hasAudioManager
    ensures scene.initialCollectibleCount == |scene.definition.collectibles|
    ensures scene.initialEnemyCount == |scene.definition.enemies| && !scene.completionTriggered
  {
    var definition := scene.definition;
    scene.UnloadScene();
    scene.SetDefinition(definition);
    var ok := scene.LoadScene(screenWidth, screenHeight);
  }

  /** The scene work of finishTransition: the previous scene is
      deactivated and the next one activated, so that the next scene is
      the only active one; no scene's world changes. */
  method SwitchActive(loaded: map<string, Scene>, previous: Scene?, next: Scene?, ghost nextName: string, ghost r: set<Scene>)
    requires AllStored(loaded, previous, r)
    requires next != null ==> nextName in loaded && loaded[nextName] == next
    modifies previous, next
    ensures AllStored(loaded, next, r)
    ensures forall k :: k in loaded ==> loaded[k].gameWorld == old(loaded[k].gameWorld)
    ensures previous != null && previous != next ==> !previous.isActive
  {
    if previous != null {
      previous.DeactivateScene();
    }
    if next != null {
      next.ActivateScene();
    }
    forall k | k in loaded
      ensures Stored(loaded[k], next)
    {
      var s := loaded[k];
      assert old(Stored(s, previous));
    }
  }

  class SceneManager {
    var loadedScenes: map<string, Scene>
    var currentScene: Scene?
    var nextScene: Scene?
    var isTransitioning: bool
    var currentTransition: SceneTransition
    var transitionProgress: real
    var transitionTimer: real
    var screenWidth: int
    var screenHeight: int
    var hasAudioManager: bool
    /** The names the current and the next scene are stored under. */
    ghost var currentName: string
    ghost var nextName: string
    /** The scenes and their worlds. */
    ghost var ScenesRepr: set<Scene>

    /** Every stored scene is loaded, and exactly the current one is
        active; each scene is stored once; the current and the next scene
        are stored ones. */
    ghost predicate Valid()
      reads this`loadedScenes, this`currentScene, this`nextScene, this`currentName, this`nextName
      reads this`ScenesRepr, ScenesRepr
    {
      Tracks(loadedScenes, currentScene, nextScene, currentName, nextName, ScenesRepr)
    }

    /** SceneManager(): no scenes, no transition, an 800 x 600 screen. */
    constructor ()
      ensures Valid() && ScenesRepr == {}
      ensures loadedScenes == map[] && currentScene == null && nextScene == null && !isTransitioning
      ensures screenWidth == 800 && screenHeight == 600 && !hasAudioManager
    {
      loadedScenes := map[];
      currentScene := null;
      nextScene := null;
      isTransitioning := false;
      currentTransition := DefaultTransition();
      transitionProgress := 0.0;
      transitionTimer := 0.0;
      screenWidth := 800;
      screenHeight := 600;
      hasAudioManager := false;
      ScenesRepr := {};
    }

    /** initialize: records the screen size and succeeds. */
    method Initialize(width: int, height: int) returns (ok: bool)
      modifies this`screenWidth, this`screenHeight
      ensures ok && screenWidth == width && screenHeight == height
    {
      screenWidth := width;
      screenHeight := height;
      return true;
    }

    /** loadSceneFromDefinition: a name already loaded keeps its scene; an
        invalid definition is refused; otherwise a fresh scene is built from
        the definition at the manager's screen size and stored under the
        name, inactive, with the audio manager passed on. */
    method LoadSceneFromDefinition(sceneName: string, definition: SceneDefinition) returns (ok: bool)
      requires Valid()
      modifies this`loadedScenes, this`ScenesRepr
      ensures Valid() && fresh(ScenesRepr - old(ScenesRepr))
      ensures sceneName in old(loadedScenes) ==> ok && unchanged(this)
      ensures sceneName !in old(loadedScenes) && !ValidDefinition(definition) ==> !ok && unchanged(this)
      ensures sceneName !in old(loadedScenes) && ValidDefinition(definition) ==>
        && ok
        && sceneName in loadedScenes
        && loadedScenes == old(loadedScenes)[sceneName := loadedScenes[sceneName]]
        && var scene := loadedScenes[sceneName];
           && fresh(scene) && scene.definition == definition && scene.isLoaded && !scene.isActive
           && scene.initialCollectibleCount == |definition.collectibles|
           && scene.initialEnemyCount == |definition.enemies| && !scene.completionTriggered
           && scene.gameWorld.hasAudioManager == hasAudioManager
    {
      if sceneName in loadedScenes {
        return true;
      }
      if !ValidDefinition(definition) {
        return false;
      }
      var scene := NewLoadedScene(definition, screenWidth, screenHeight, hasAudioManager);
      Store(sceneName, scene);
      ok := true;
    }

    /** Stores a loaded, inactive scene that is new to the manager under a
        name not yet in use. */
    method Store(sceneName: string, scene: Scene)
      requires Valid() && sceneName !in loadedScenes
      requires scene !in ScenesRepr
      requires scene != currentScene && Stored(scene, currentScene)
      requires forall k :: k in loadedScenes ==> loadedScenes[k] != scene
      modifies this`loadedScenes, this`ScenesRepr
      ensures Valid() && ScenesRepr == old(ScenesRepr) + {scene}
      ensures loadedScenes == old(loadedScenes)[sceneName := scene]
    {
      AllStoredAdd(loadedScenes, currentScene, ScenesRepr, sceneName, scene);
      InjectiveAdd(loadedScenes, sceneName, scene);
      if currentScene != null {
        KeepsOtherNames(loadedScenes, sceneName, scene, currentName);
      }
      if nextScene != null {
        KeepsOtherNames(loadedScenes, sceneName, scene, nextName);
      }
      loadedScenes, ScenesRepr := loadedScenes[sceneName := scene], ScenesRepr + {scene};
    }

    /** loadSceneFromFile: a file that does not open is refused, an
        unreadable number throws out of the call (None) with nothing
        changed, and otherwise the definition read (named after the scene
        when the file names none) is loaded as loadSceneFromDefinition
        does. */
    method LoadSceneFromFile(sceneName: string, filePath: string, disk: Disk, num: Reader) returns (r: Option<bool>)
      requires Valid()
      modifies this
      ensures Valid() && fresh(ScenesRepr - old(ScenesRepr))
      ensures !FileDefinition(sceneName, filePath, disk, num).Read? ==> unchanged(this)
      ensures FileDefinition(sceneName, filePath, disk, num).NotOpened? ==> r == Some(false)
      ensures FileDefinition(sceneName, filePath, disk, num).Threw? ==> r == None
      ensures FileDefinition(sceneName, filePath, disk, num).Read? ==>
        var d := FileDefinition(sceneName, filePath, disk, num).def;
        && (sceneName in old(loadedScenes) ==> r == Some(true) && unchanged(this))
        && (sceneName !in old(loadedScenes) && !ValidDefinition(d) ==> r == Some(false) && unchanged(this))
        && (sceneName !in old(loadedScenes) && ValidDefinition(d) ==>
              && r == Some(true)
              && sceneName in loadedScenes
              && loadedScenes == old(loadedScenes)[sceneName := loadedScenes[sceneName]]
              && fresh(loadedScenes[sceneName]) && loadedScenes[sceneName].definition == d
              && loadedScenes[sceneName].isLoaded && !loadedScenes[sceneName].isActive
              && currentScene == old(currentScene) && nextScene == old(nextScene))
    {
      var read := LoadSceneDefinitionFromFile(filePath, disk, num, DefaultDefinition());
      if read.NotOpened? {
        return Some(false);
      } else if read.Threw? {
        return None;
      }
      var definition := read.def;
      if definition.name == [] {
        definition := definition.(name := sceneName);
      }
      var ok := LoadSceneFromDefinition(sceneName, definition);
      return Some(ok);
    }

    /** unloadScene: an unknown name, the current scene and the scene a
        transition is heading for are kept; any other scene is unloaded and
        removed. */
    method UnloadScene(sceneName: string)
      requires Valid()
      modifies this`loadedScenes, this`ScenesRepr, ScenesRepr
      ensures Valid() && ScenesRepr <= old(ScenesRepr)
      ensures loadedScenes == Unloaded(old(loadedScenes), currentScene, nextScene, sceneName)
      ensures loadedScenes != old(loadedScenes) ==> !old(loadedScenes[sceneName]).isLoaded
      ensures forall k :: k in loadedScenes ==> unchanged(loadedScenes[k])
    {
      UnloadedKeepsPointers(loadedScenes, currentScene, nextScene, sceneName);
      if sceneName !in loadedScenes {
        return;
      }
      var scene := loadedScenes[sceneName];
      if scene == currentScene || scene == nextScene {
        return;
      }
      AllStoredRemove(loadedScenes, currentScene, ScenesRepr, sceneName);
      scene.UnloadScene();
      loadedScenes, ScenesRepr := loadedScenes - {sceneName}, ScenesRepr - {scene};
    }

    /** unloadScene as the engine writes it: only the current scene is
        protected, so the scene a transition is heading for can be removed
        while `nextScene` still points at it. */
    method UnloadSceneAsWritten(sceneName: string)
      requires Valid()
      modifies this`loadedScenes, ScenesRepr
      ensures loadedScenes == UnloadedAsWritten(old(loadedScenes), currentScene, sceneName)
      ensures nextScene == old(nextScene) && isTransitioning == old(isTransitioning)
      ensures old(isTransitioning) && sceneName in old(loadedScenes) && old(loadedScenes[sceneName]) == nextScene
              && nextScene != currentScene ==>
        isTransitioning && nextScene != null && nextScene !in loadedScenes.Values && !nextScene.isLoaded
    {
      if sceneName in loadedScenes && loadedScenes[sceneName] == nextScene && nextScene != currentScene {
        DanglingNextAsWritten(loadedScenes, currentScene, nextScene, sceneName);
      }
      if sceneName !in loadedScenes {
        return;
      }
      var scene := loadedScenes[sceneName];
      if scene == currentScene {
        return;
      }
      scene.UnloadScene();
      loadedScenes := loadedScenes - {sceneName};
    }

    /** unloadAllScenes: every stored scene is unloaded, the map is emptied
        and neither a current nor a next scene remains. */
    method UnloadAllScenes()
      requires Valid()
      modifies this, ScenesRepr
      ensures Valid() && ScenesRepr == {}
      ensures loadedScenes == map[] && currentScene == null && nextScene == null
      ensures isTransitioning == old(isTransitioning) && hasAudioManager == old(hasAudioManager)
      ensures forall k :: k in old(loadedScenes) ==> !old(loadedScenes)[k].isLoaded && !old(loadedScenes)[k].isActive
    {
      UnloadEach(loadedScenes, ScenesRepr);
      loadedScenes, currentScene, nextScene, ScenesRepr := map[], null, null, {};
    }

    /** shutdown: all scenes unloaded, no transition and no audio manager. */
    method Shutdown()
      requires Valid()
      modifies this, ScenesRepr
      ensures Valid() && ScenesRepr == {}
      ensures loadedScenes == map[] && currentScene == null && nextScene == null
      ensures !isTransitioning && !hasAudioManager
      ensures forall k :: k in old(loadedScenes) ==> !old(loadedScenes)[k].isLoaded
    {
      UnloadAllScenes();
      currentScene := null;
      nextScene := null;
      isTransitioning := false;
      hasAudioManager := false;
    }

    /** finishTransition: the current scene is deactivated, the next one
        becomes current and is activated, and no transition remains. */
    method FinishTransition()
      requires Valid()
      modifies this, ScenesRepr
      ensures Valid() && ScenesRepr == old(ScenesRepr) && loadedScenes == old(loadedScenes)
      ensures currentScene == old(nextScene) && nextScene == null && !isTransitioning
      ensures transitionProgress == 0.0 && transitionTimer == 0.0
      ensures currentTransition == old(currentTransition)
      ensures old(currentScene) != null && old(currentScene) != currentScene ==> !old(currentScene).isActive
      ensures forall k :: k in loadedScenes ==> loadedScenes[k].gameWorld == old(loadedScenes[k].gameWorld)
    {
      var previous := currentScene;
      currentScene, currentName, nextScene, isTransitioning, transitionProgress, transitionTimer :=
        nextScene, nextName, null, false, 0.0, 0.0;
      SwitchActive(loadedScenes, previous, currentScene, currentName, ScenesRepr);
    }

    /** changeScene: refused while a transition runs or when the name is not
        loaded; the current scene's own name succeeds without a transition;
        an INSTANT change switches at once and any other starts a
        transition towards the scene. */
    method ChangeScene(sceneName: string, transition: SceneTransition) returns (ok: bool)
      requires Valid()
      modifies this, ScenesRepr
      ensures Valid() && ScenesRepr == old(ScenesRepr) && loadedScenes == old(loadedScenes)
      ensures ok <==> !old(isTransitioning) && sceneName in loadedScenes
      ensures !ok ==> unchanged(this) && unchanged(old(ScenesRepr))
      ensures ok && old(loadedScenes[sceneName]) == old(currentScene) ==>
        currentScene == old(currentScene) && nextScene == currentScene && !isTransitioning
      ensures ok && old(loadedScenes[sceneName]) != old(currentScene) && transition.transitionType == INSTANT ==>
        currentScene == loadedScenes[sceneName] && nextScene == null && !isTransitioning
        && (old(currentScene) != null ==> !old(currentScene).isActive)
      ensures ok && old(loadedScenes[sceneName]) != old(currentScene) && transition.transitionType != INSTANT ==>
        && currentScene == old(currentScene) && nextScene == loadedScenes[sceneName]
        && isTransitioning && currentTransition == transition
        && transitionProgress == 0.0 && transitionTimer == 0.0
    {
      if isTransitioning {
        return false;
      }
      if sceneName !in loadedScenes {
        return false;
      }
      Switch(sceneName, transition);
      return true;
    }

    /** The part of changeScene past its two refusals. */
    method Switch(sceneName: string, transition: SceneTransition)
      requires Valid() && !isTransitioning && sceneName in loadedScenes
      modifies this, ScenesRepr
      ensures Valid() && ScenesRepr == old(ScenesRepr) && loadedScenes == old(loadedScenes)
      ensures old(loadedScenes[sceneName]) == old(currentScene) ==>
        currentScene == old(currentScene) && nextScene == currentScene && !isTransitioning
      ensures old(loadedScenes[sceneName]) != old(currentScene) && transition.transitionType == INSTANT ==>
        currentScene == loadedScenes[sceneName] && nextScene == null && !isTransitioning
        && (old(currentScene) != null ==> !old(currentScene).isActive)
      ensures old(loadedScenes[sceneName]) != old(currentScene) && transition.transitionType != INSTANT ==>
        && currentScene == old(currentScene) && nextScene == loadedScenes[sceneName]
        && isTransitioning && currentTransition == transition
        && transitionProgress == 0.0 && transitionTimer == 0.0
    {
      if currentScene == loadedScenes[sceneName] {
        Aim(sceneName);
      } else if transition.transitionType == INSTANT {
        Aim(sceneName);
        FinishTransition();
      } else {
        // the fields Valid does not read are set before nextScene
        isTransitioning, currentTransition, transitionProgress, transitionTimer := true, transition, 0.0, 0.0;
        Aim(sceneName);
      }
    }

    /** Points the manager at the scene stored under the name as the next
        one. */
    method Aim(sceneName: string)
      requires Valid() && sceneName in loadedScenes
      modifies this`nextScene, this`nextName
      ensures Valid() && nextScene == loadedScenes[sceneName]
    {
      nextScene, nextName := loadedScenes[sceneName], sceneName;
    }

    /** changeSceneInstant: changeScene with an INSTANT transition; on
        success the named scene is current (and so active) and no
        transition runs. */
    method ChangeSceneInstant(sceneName: string) returns (ok: bool)
      requires Valid()
      modifies this, ScenesRepr
      ensures Valid() && ScenesRepr == old(ScenesRepr) && loadedScenes == old(loadedScenes)
      ensures ok <==> !old(isTransitioning) && sceneName in loadedScenes
      ensures ok ==> currentScene == loadedScenes[sceneName] && currentScene.isActive && !isTransitioning
    {
      ok := ChangeScene(sceneName, SceneTransition(INSTANT, 1.0, Color(0.0, 0.0, 0.0, 1.0)));
      if ok {
        assert Stored(loadedScenes[sceneName], currentScene);
      }
    }

    /** restartCurrentScene: with no current scene nothing happens;
        otherwise the current scene is unloaded and loaded again from its
        own definition at the manager's screen size, gets the audio manager
        and is activated. */
    method RestartCurrentScene()
      requires Valid()
      modifies ScenesRepr
      ensures Valid()
      ensures currentScene == null ==> unchanged(ScenesRepr)
      ensures currentScene != null ==>
        && currentScene.definition == old(currentScene.definition)
        && currentScene.isLoaded && currentScene.isActive
        && fresh(currentScene.gameWorld)
        && currentScene.gameWorld.hasAudioManager == hasAudioManager
        && currentScene.initialCollectibleCount == |currentScene.definition.collectibles|
        && currentScene.initialEnemyCount == |currentScene.definition.enemies|
        && !currentScene.completionTriggered
        && Built(currentScene.gameWorld, currentScene.definition, screenWidth, screenHeight)
      ensures forall s :: s in old(ScenesRepr) && s != currentScene ==> unchanged(s)
    {
      if currentScene == null {
        return;
      }
      Reload(currentScene, screenWidth, screenHeight, hasAudioManager);
    }

    /** The condition under which auto-progression moves on: a current
        scene, no transition running, the scene complete and naming a
        successor. */
    ghost predicate AutoProgressDue()
      reads this, currentScene, if currentScene != null then {currentScene.gameWorld} else {}
    {
      currentScene != null && !isTransitioning && currentScene.Complete() && currentScene.definition.nextScene != []
    }

    /** shouldAutoProgress. */
    method ShouldAutoProgress() returns (b: bool)
      requires Valid()
      ensures b == AutoProgressDue()
    {
      if currentScene == null || isTransitioning {
        return false;
      }
      var complete := currentScene.IsSceneComplete();
      return complete && currentScene.definition.nextScene != [];
    }

    /** checkAutoProgression: when auto-progression is due and the successor
        is loaded, the manager changes to it with the default fade; otherwise
        nothing changes. */
    method CheckAutoProgression()
      requires Valid()
      modifies this, ScenesRepr
      ensures Valid() && ScenesRepr == old(ScenesRepr)
      ensures loadedScenes == old(loadedScenes) && currentScene == old(currentScene)
      ensures !old(AutoProgressDue() && currentScene.definition.nextScene in loadedScenes) ==> unchanged(this, ScenesRepr)
      ensures old(AutoProgressDue()) && old(currentScene.definition.nextScene) in loadedScenes ==>
        var target := loadedScenes[old(currentScene.definition.nextScene)];
        && nextScene == target
        && (target != currentScene ==> isTransitioning && currentTransition == DefaultTransition())
    {
      if currentScene == null || isTransitioning {
        return;
      }
      var complete := currentScene.IsSceneComplete();
      if complete && currentScene.definition.nextScene != [] {
        var nextSceneName := currentScene.definition.nextScene;
        if nextSceneName in loadedScenes {
          var ok := ChangeScene(nextSceneName, DefaultTransition());
        }
      }
    }

    /** saveSceneToFile: an unknown name is refused with the disk as it was;
        otherwise the scene's definition is written as
        saveSceneDefinitionToFile writes it. */
    method SaveSceneToFile(sceneName: string, filePath: string, disk: Disk, fmt: Printer, canOpen: bool, now: int)
      returns (ok: bool, written: Disk)
      ensures sceneName !in loadedScenes ==> !ok && written == disk
      ensures sceneName in loadedScenes ==>
        (ok, written) == SaveDefinitionToFile(loadedScenes[sceneName].definition, filePath, disk, fmt, canOpen, now)
    {
      if sceneName !in loadedScenes {
        return false, disk;
      }
      var r := SaveDefinitionToFile(loadedScenes[sceneName].definition, filePath, disk, fmt, canOpen, now);
      return r.0, r.1;
    }
  }
}
