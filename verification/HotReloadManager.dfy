// The hot-reload manager: reverse registries from scene names and sound
// ids to the files they were loaded from, a file watcher that reports
// changes of those files, and the reload paths that hand a changed file back
// to the scene manager or the audio manager. The application pointer is a
// flag; the watcher's callbacks are the handler names its watches carry
// (onSceneChanged and onAudioChanged only delegate to ReloadScene and
// ReloadAudio).

module HotReload {
  import opened Common
  import opened FileWatching
  import opened Audio
  import opened SceneData
  import opened SceneFiles
  import opened Scenes
  import opened SceneManagement

  /** The handler names the manager registers its watches with. */
  const SceneHandler := "onSceneChanged"
  const AudioHandler := "onAudioChanged"

  /** Some non-empty id is registered for the path. */
  predicate HasId(registry: map<string, string>, filePath: string)
  {
    exists id :: id in registry && registry[id] == filePath && id != ""
  }

  /** getAssetIdFromPath: the registry is searched in no particular order
      and the first id whose path is `filePath` is returned, "" when there
      is none. A non-empty answer is an id registered for the path; the
      answer is "" when no non-empty id is, and otherwise only when the
      search happened upon "" registered for the path itself. */
  method GetAssetIdFromPath(filePath: string, registry: map<string, string>) returns (id: string)
    ensures id != "" ==> id in registry && registry[id] == filePath
    ensures !HasId(registry, filePath) ==> id == ""
    ensures id == "" ==> !HasId(registry, filePath) || ("" in registry && registry[""] == filePath)
  {
    var remaining := registry.Keys;
    while remaining != {}
      invariant remaining <= registry.Keys
      invariant forall k :: k in registry && k !in remaining ==> registry[k] != filePath
      decreases remaining
    {
      var k :| k in remaining;
      if registry[k] == filePath {
        return k;
      }
      remaining := remaining - {k};
    }
    return "";
  }

  class HotReloadManager {
    const fileWatcher: FileWatcher
    /** Whether the application pointer is set. */
    var hasApplication: bool
    var sceneManager: SceneManager?
    var audioManager: AudioManager?
    var textureRegistry: map<string, string>
    var sceneRegistry: map<string, string>
    var audioRegistry: map<string, string>
    var isEnabled: bool

    /** HotReloadManager(): no collaborators, empty registries, disabled. */
    constructor ()
      ensures fresh(fileWatcher) && fileWatcher.watchedFiles == map[] && !fileWatcher.isRunning
      ensures !hasApplication && sceneManager == null && audioManager == null
      ensures textureRegistry == map[] && sceneRegistry == map[] && audioRegistry == map[]
      ensures !isEnabled
    {
      fileWatcher := new FileWatcher();
      hasApplication := false;
      sceneManager := null;
      audioManager := null;
      textureRegistry := map[];
      sceneRegistry := map[];
      audioRegistry := map[];
      isEnabled := false;
    }

    /** initialize: any missing collaborator is refused with nothing
        stored; otherwise the collaborators are kept, the watcher starts and
        hot reloading is enabled. */
    method Initialize(application: bool, sceneMgr: SceneManager?, audioMgr: AudioManager?) returns (ok: bool)
      modifies this, fileWatcher
      ensures ok <==> application && sceneMgr != null && audioMgr != null
      ensures !ok ==> unchanged(this, fileWatcher)
      ensures ok ==> hasApplication && sceneManager == sceneMgr && audioManager == audioMgr
                     && isEnabled && fileWatcher.isRunning
      ensures sceneRegistry == old(sceneRegistry) && audioRegistry == old(audioRegistry)
      ensures fileWatcher.watchedFiles == old(fileWatcher.watchedFiles)
    {
      if !application || sceneMgr == null || audioMgr == null {
        return false;
      }
      hasApplication := application;
      sceneManager := sceneMgr;
      audioManager := audioMgr;
      var started := fileWatcher.Initialize(application);
      if !started {
        return false;
      }
      isEnabled := true;
      return true;
    }

    /** enable: hot reloading and the watcher are switched on; no registry
        changes. */
    method Enable()
      modifies this`isEnabled, fileWatcher`isRunning
      ensures isEnabled && fileWatcher.isRunning
    {
      isEnabled := true;
      fileWatcher.SetEnabled(true);
    }

    /** disable: hot reloading and the watcher are switched off; no registry
        changes. */
    method Disable()
      modifies this`isEnabled, fileWatcher`isRunning
      ensures !isEnabled && !fileWatcher.isRunning
    {
      isEnabled := false;
      fileWatcher.SetEnabled(false);
    }

    /** shutdown: disabled, the watcher shut down, all three registries
        emptied and the collaborators dropped. */
    method Shutdown()
      modifies this, fileWatcher
      ensures !isEnabled && !fileWatcher.isRunning
      ensures textureRegistry == map[] && sceneRegistry == map[] && audioRegistry == map[]
      ensures !hasApplication && sceneManager == null && audioManager == null
    {
      Disable();
      fileWatcher.Shutdown();
      textureRegistry := map[];
      sceneRegistry := map[];
      audioRegistry := map[];
      hasApplication := false;
      sceneManager := null;
      audioManager := null;
    }

    /** registerScene: ignored while disabled; otherwise the scene's file is
        recorded under its name and watched as a SCENE file. */
    method RegisterScene(sceneName: string, filePath: string, disk: Disk, clocks: Clocks)
      modifies this`sceneRegistry, fileWatcher`watchedFiles
      ensures !isEnabled ==> sceneRegistry == old(sceneRegistry) && fileWatcher.watchedFiles == old(fileWatcher.watchedFiles)
      ensures isEnabled ==>
        && sceneRegistry == old(sceneRegistry)[sceneName := filePath]
        && fileWatcher.watchedFiles == Watch(old(fileWatcher.watchedFiles), filePath, SCENE, Handler(SceneHandler), disk, clocks)
    {
      if !isEnabled {
        return;
      }
      sceneRegistry := sceneRegistry[sceneName := filePath];
      fileWatcher.WatchFile(filePath, SCENE, Handler(SceneHandler), disk, clocks);
    }

    /** registerAudio: ignored while disabled; otherwise the sound's file is
        recorded under its id and watched as an AUDIO file. */
    method RegisterAudio(soundId: string, filePath: string, disk: Disk, clocks: Clocks)
      modifies this`audioRegistry, fileWatcher`watchedFiles
      ensures !isEnabled ==> audioRegistry == old(audioRegistry) && fileWatcher.watchedFiles == old(fileWatcher.watchedFiles)
      ensures isEnabled ==>
        && audioRegistry == old(audioRegistry)[soundId := filePath]
        && fileWatcher.watchedFiles == Watch(old(fileWatcher.watchedFiles), filePath, AUDIO, Handler(AudioHandler), disk, clocks)
    {
      if !isEnabled {
        return;
      }
      audioRegistry := audioRegistry[soundId := filePath];
      fileWatcher.WatchFile(filePath, AUDIO, Handler(AudioHandler), disk, clocks);
    }

    /** reloadAudio: a path with no registered sound changes nothing;
        otherwise the sound is loaded again through loadSound, which keeps
        a sound that is already loaded. */
    method ReloadAudio(filePath: string, disk: Disk) returns (soundId: string)
      requires HasId(audioRegistry, filePath) ==> audioManager != null
      modifies audioManager
      ensures !HasId(audioRegistry, filePath) ==> soundId == ""
      ensures soundId != "" && soundId in old(audioManager.sounds) ==> unchanged(audioManager)
      ensures soundId == "" ==> audioManager == null || unchanged(audioManager)
      ensures soundId != "" ==>
        && soundId in audioRegistry && audioRegistry[soundId] == filePath
        && audioManager.Model() == Load(old(audioManager.Model()), soundId, filePath, disk).1
    {
      soundId := GetAssetIdFromPath(filePath, audioRegistry);
      if soundId == "" {
        return;
      }
      var ok := audioManager.LoadSound(soundId, filePath, disk);
    }

    /** The scene manager's current scene carries the name in its
        definition. */
    ghost predicate CurrentIsNamed(sceneName: string)
      reads this, sceneManager, if sceneManager != null then {sceneManager.currentScene} else {}
    {
      sceneManager != null && sceneManager.currentScene != null
      && sceneManager.currentScene.definition.name == sceneName
    }

    /** reloadScene: a path with no registered scene changes nothing. When
        the current scene is named after the registered id, the file is
        loaded under that name and, on success, the current scene is
        restarted; as loading keeps a name already loaded, a stored scene
        keeps its definition. Any other scene is unloaded (unless the
        manager protects it) and loaded again from the file: an unprotected
        scene then holds the definition read from the file, or is gone when
        the file cannot be read. */
    method ReloadScene(filePath: string, disk: Disk, num: Reader) returns (sceneName: string)
      requires sceneManager != null ==> sceneManager.Valid()
      requires HasId(sceneRegistry, filePath) ==> sceneManager != null
      modifies sceneManager, if sceneManager != null then sceneManager.ScenesRepr else {}
      ensures sceneManager != null ==> sceneManager.Valid()
      ensures !HasId(sceneRegistry, filePath) ==> sceneName == ""
      ensures sceneName != "" ==> sceneName in sceneRegistry && sceneRegistry[sceneName] == filePath
      ensures sceneName == "" && sceneManager != null ==>
        unchanged(old(sceneManager)) && unchanged(old(sceneManager.ScenesRepr))
      ensures sceneName != "" && sceneManager != null && old(CurrentIsNamed(sceneName)) ==>
        && sceneManager.currentScene == old(sceneManager.currentScene)
        && sceneManager.currentScene.definition == old(sceneManager.currentScene.definition)
        && (sceneName in old(sceneManager.loadedScenes) ==> sceneManager.loadedScenes == old(sceneManager.loadedScenes))
      ensures sceneName != "" && sceneManager != null && old(CurrentIsNamed(sceneName))
              && sceneName !in old(sceneManager.loadedScenes) ==>
        var read := FileDefinition(sceneName, filePath, disk, num);
        read.Read? && ValidDefinition(read.def) ==>
          && sceneName in sceneManager.loadedScenes
          && sceneManager.loadedScenes == old(sceneManager.loadedScenes)[sceneName := sceneManager.loadedScenes[sceneName]]
          && fresh(sceneManager.loadedScenes[sceneName])
          && sceneManager.loadedScenes[sceneName].definition == read.def
      ensures sceneName != "" && sceneManager != null && old(CurrentIsNamed(sceneName)) ==>
        var read := FileDefinition(sceneName, filePath, disk, num);
        && (RestartsAfterLoad(read, sceneName in old(sceneManager.loadedScenes)) ==>
              && fresh(sceneManager.currentScene.gameWorld)
              && Restarted(sceneManager.currentScene, sceneManager.hasAudioManager, sceneManager.screenWidth, sceneManager.screenHeight))
        && (!RestartsAfterLoad(read, sceneName in old(sceneManager.loadedScenes)) ==>
              unchanged(old(sceneManager)) && unchanged(old(sceneManager.ScenesRepr)))
      ensures sceneName != "" && sceneManager != null && !old(CurrentIsNamed(sceneName))
              && sceneName in old(sceneManager.loadedScenes)
              && (old(sceneManager.loadedScenes[sceneName]) == old(sceneManager.currentScene)
                  || old(sceneManager.loadedScenes[sceneName]) == old(sceneManager.nextScene)) ==>
        && sceneManager.loadedScenes == old(sceneManager.loadedScenes)
        && sceneManager.currentScene == old(sceneManager.currentScene)
        && sceneManager.nextScene == old(sceneManager.nextScene)
      ensures sceneName != "" && sceneManager != null && !old(CurrentIsNamed(sceneName))
              && sceneName in old(sceneManager.loadedScenes)
              && old(sceneManager.loadedScenes[sceneName]) != old(sceneManager.currentScene)
              && old(sceneManager.loadedScenes[sceneName]) != old(sceneManager.nextScene) ==>
        var read := FileDefinition(sceneName, filePath, disk, num);
        && (read.Read? && ValidDefinition(read.def) ==>
              sceneName in sceneManager.loadedScenes && fresh(sceneManager.loadedScenes[sceneName])
              && sceneManager.loadedScenes[sceneName].definition == read.def)
        && (!(read.Read? && ValidDefinition(read.def)) ==> sceneName !in sceneManager.loadedScenes)
      ensures sceneName != "" && sceneManager != null && !old(CurrentIsNamed(sceneName))
              && sceneName !in old(sceneManager.loadedScenes) ==>
        var read := FileDefinition(sceneName, filePath, disk, num);
        && sceneManager.currentScene == old(sceneManager.currentScene)
        && sceneManager.nextScene == old(sceneManager.nextScene)
        && (read.Read? && ValidDefinition(read.def) ==>
              && sceneName in sceneManager.loadedScenes && fresh(sceneManager.loadedScenes[sceneName])
              && sceneManager.loadedScenes == old(sceneManager.loadedScenes)[sceneName := sceneManager.loadedScenes[sceneName]]
              && sceneManager.loadedScenes[sceneName].definition == read.def)
        && (!(read.Read? && ValidDefinition(read.def)) ==> sceneManager.loadedScenes == old(sceneManager.loadedScenes))
    {
      sceneName := GetAssetIdFromPath(filePath, sceneRegistry);
      if sceneName == "" {
        return;
      }
      assert sceneName in sceneRegistry && sceneRegistry[sceneName] == filePath;
      var current := sceneManager.currentScene;
      if current != null && current.definition.name == sceneName {
        ReloadCurrent(sceneManager, sceneName, filePath, disk, num);
      } else {
        ReplaceScene(sceneManager, sceneName, filePath, disk, num);
      }
    }
  }

  /** A scene that is neither current nor the transition's target is
      unloaded and loaded again from the file: it then holds the definition
      read from the file, or is gone when the file cannot be read. */
  method ReplaceScene(m: SceneManager, sceneName: string, filePath: string, disk: Disk, num: Reader)
    requires m.Valid()
    modifies m, m.ScenesRepr
    ensures m.Valid()
    ensures sceneName in old(m.loadedScenes)
            && (old(m.loadedScenes[sceneName]) == old(m.currentScene)
                || old(m.loadedScenes[sceneName]) == old(m.nextScene)) ==>
      && m.loadedScenes == old(m.loadedScenes)
      && m.currentScene == old(m.currentScene) && m.nextScene == old(m.nextScene)
      && unchanged(old(m.loadedScenes[sceneName]))
    ensures sceneName in old(m.loadedScenes)
            && old(m.loadedScenes[sceneName]) != old(m.currentScene)
            && old(m.loadedScenes[sceneName]) != old(m.nextScene) ==>
      var read := FileDefinition(sceneName, filePath, disk, num);
      && (read.Read? && ValidDefinition(read.def) ==>
            sceneName in m.loadedScenes && fresh(m.loadedScenes[sceneName])
            && m.loadedScenes[sceneName].definition == read.def)
      && (!(read.Read? && ValidDefinition(read.def)) ==> sceneName !in m.loadedScenes)
    ensures sceneName !in old(m.loadedScenes) ==>
      var read := FileDefinition(sceneName, filePath, disk, num);
      && m.currentScene == old(m.currentScene) && m.nextScene == old(m.nextScene)
      && (read.Read? && ValidDefinition(read.def) ==>
            && sceneName in m.loadedScenes && fresh(m.loadedScenes[sceneName])
            && m.loadedScenes == old(m.loadedScenes)[sceneName := m.loadedScenes[sceneName]]
            && m.loadedScenes[sceneName].definition == read.def)
      && (!(read.Read? && ValidDefinition(read.def)) ==> m.loadedScenes == old(m.loadedScenes))
  {
    m.UnloadScene(sceneName);
    var loaded := m.LoadSceneFromFile(sceneName, filePath, disk, num);
  }

  /** Whether loadSceneFromFile reports success, so that the current scene
      is restarted: the file was read, and its scene was either loaded
      already under the name or is valid. */
  predicate RestartsAfterLoad(read: FileRead, alreadyLoaded: bool)
  {
    read.Read? && (alreadyLoaded || ValidDefinition(read.def))
  }

  /** The state restartCurrentScene leaves the current scene in: loaded and
      active, the audio manager passed on when the manager has one, its
      counts reset to the definition's lists and no completion recorded. */
  ghost predicate Restarted(scene: Scene, audio: bool, width: int, height: int)
    reads scene, scene.gameWorld, scene.Footprint()
  {
    && scene.isLoaded && scene.isActive && scene.gameWorld != null
    && Built(scene.gameWorld, scene.definition, width, height)
    && scene.gameWorld.hasAudioManager == audio
    && scene.initialCollectibleCount == |scene.definition.collectibles|
    && scene.initialEnemyCount == |scene.definition.enemies|
    && !scene.completionTriggered
  }

  /** The branch of reloadScene for the current scene: the file is loaded
      under the scene's name and, when that succeeds, the current scene is
      restarted from its own definition; otherwise nothing changes. */
  method ReloadCurrent(m: SceneManager, sceneName: string, filePath: string, disk: Disk, num: Reader)
    requires m.Valid() && m.currentScene != null && m.currentScene.definition.name == sceneName
    modifies m, m.ScenesRepr
    ensures m.Valid()
    ensures m.currentScene == old(m.currentScene) && m.currentScene.definition == old(m.currentScene.definition)
    ensures sceneName in old(m.loadedScenes) ==> m.loadedScenes == old(m.loadedScenes)
    ensures sceneName !in old(m.loadedScenes) ==>
      var read := FileDefinition(sceneName, filePath, disk, num);
      read.Read? && ValidDefinition(read.def) ==>
        && sceneName in m.loadedScenes
        && m.loadedScenes == old(m.loadedScenes)[sceneName := m.loadedScenes[sceneName]]
        && fresh(m.loadedScenes[sceneName]) && m.loadedScenes[sceneName].definition == read.def
    ensures RestartsAfterLoad(FileDefinition(sceneName, filePath, disk, num), sceneName in old(m.loadedScenes)) ==>
      fresh(m.currentScene.gameWorld) && Restarted(m.currentScene, m.hasAudioManager, m.screenWidth, m.screenHeight)
    ensures !RestartsAfterLoad(FileDefinition(sceneName, filePath, disk, num), sceneName in old(m.loadedScenes)) ==>
      unchanged(m) && unchanged(old(m.ScenesRepr))
  {
    var loaded := m.LoadSceneFromFile(sceneName, filePath, disk, num);
    if loaded == Some(true) {
      m.RestartCurrentScene();
    }
  }
}
