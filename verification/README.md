# CrownFlame 2D engine: asset lifecycle, hot reload and scenes in Dafny

This project models the core of the CrownFlame 2D game engine and proves
properties of that model. The core covered is:

- **Asset lifecycle** (`AssetManager.dfy`): per-category stores of textures,
  audio, scenes and fonts; a registry of loaded assets; extension-based
  classification; discovery, batch loading, reloading, unloading, and
  memory and validity queries.
- **File watching** (`FileWatcher.dfy`): the table of watched files with
  their modification-time baselines, a polling pass that fires callbacks for
  changed files, and file-type detection.
- **Audio** (`AudioManager.dfy`): the sound store behind the audio device.
- **Hot reload** (`HotReloadManager.dfy`): registration of scene and audio
  files by id, and reloading a scene or a sound when its file changes.
- **Scenes**:
  - `SceneData.dfy`: the scene description records and their defaults.
  - `SceneFile.dfy`: the scene manager's text format, writer and reader.
  - `Scene.dfy`: building a game world from a description, scene life
    cycle and completion rule.
  - `SceneManager.dfy`: the loaded-scene map, the current and next scene,
    and transitions.
  - `SceneValidator.dfy`: the validator and its errors and warnings.
- **Game world** (`GameState.dfy`, `GameObject.dfy`, `GameWorld.dfy`): the
  game state machine, rectangles and collision, the world's objects,
  enemies, player movement and collision handling.
- **Tiles** (`Tile.dfy`, `Tileset.dfy`, `TileMap.dfy`, `TileMapManager.dfy`):
  tiles, tilesets and their indexes, the tile grid and its queries, and the
  named maps with the current map.
- **Tools** (`FileBrowser.dfy`, `Settings.dfy`, `InputManager.dfy`):
  directory listing and sorting, file-size formatting, boolean settings,
  and keyboard and mouse input.

The model keeps the engine's own form. Classes whose fields the engine
updates in place are Dafny classes with `modifies` clauses. The maps and
vectors they mutate are `map` and `seq` fields. Loops are `while` loops with
invariants. Each state-changing method is tied to a specification function
of the old state, and the properties the engine promises are proved about
those functions.

The file system, clocks and devices are parameters:

- A `Disk` value holds the files (size, modification time, text, and
  whether a decoder accepts it) and the directories (their listings and
  write times).
- The audio device's readiness, the application pointer and the cursor are
  arguments.
- Number formatting and parsing of the scene files (`operator<<`, `stof`)
  are a `Printer` and a `Reader` function. The round-trip lemmas assume
  only that every printed number is one token the reader accepts. A
  number read back is then the reader's value of its printed text. It
  equals the saved number only when the reader reads that text back
  exactly, which six significant digits do not guarantee.

Floating-point numbers are modelled as mathematical reals and integers as
unbounded integers.

## Model

| member | source | states |
|---|---|---|
| Assets.AssetTypeString | src/AssetManager.cpp:552-565 | every category has a non-empty display name, never the switch's "Unknown" default; "Scene" names exactly the scene category |
| Assets.AssetTypeFromExtension | src/AssetManager.cpp:568-585 | the lower-cased extension is in the table of the category returned, or no table holds it and TEXTURE is returned |
| Assets.TablesDisjoint | src/AssetManager.cpp:572-582 | no extension is listed for two categories |
| Assets.ExtensionTablesAgree | src/AssetManager.cpp:757-777 | a path is classified as t exactly when isValidAssetFile accepts it for t, or when it is valid for no category and t is TEXTURE |
| Assets.ClassificationIgnoresCase | src/AssetManager.cpp:570-571 | lower-casing an extension first does not change its category |
| Assets.LoadInternalSpec | src/AssetManager.cpp:592-705 | an internal load succeeds exactly when the name is already stored or the file is there and decodes (a scene file: reads back non-empty); a repeated name or a failure changes nothing; a fresh success stores under the name the decoded file (for a scene, its text), registers the name with its path, type and size, appends the load event when a callback is set, and adds nothing else: unloading the name gives back the old stores |
| Assets.LoadInternalAdds | src/AssetManager.cpp:592-705 | a fresh load of a loadable file succeeds, stores the decoded file or the scene text under the name, registers it and records the callback event |
| Assets.LoadInternalUndone | src/AssetManager.cpp:592-705 | a fresh load adds one entry and nothing else: unloading that name restores every store |
| Assets.Load | src/AssetManager.cpp:60-71 | every load is refused, with nothing changed, while the manager is not initialised |
| Assets.Unload | src/AssetManager.cpp:73-82 | the name leaves its own category's store, which otherwise keeps every entry and value, and the registry when it was in that store; an absent name changes nothing; the other stores and the event list are unchanged |
| Assets.Reload | src/AssetManager.cpp:477-504 | reloading a name that is not registered fails and changes nothing |
| Assets.ReloadAsWritten | src/AssetManager.cpp:485-500 | as written, the path is read through a reference to the registry entry after the unload: whenever the store held the asset that entry has been erased (result None); otherwise the result is that of Reload |
| Assets.ReloadOfLoadedTextureDangles | src/AssetManager.cpp:485-490 | for a loaded texture whose file decodes, the code as written reads an erased entry while Reload succeeds |
| Assets.BatchLoadsEveryLoadable | src/AssetManager.cpp:229-269 | after a batch the store holds what it held plus the stem of every loadable path, whatever failed around it; other categories are untouched |
| Assets.BatchResult | src/AssetManager.cpp:238-268 | a batch reports success exactly when every one of its loads succeeds |
| Assets.LoadKeepsValid | src/AssetManager.cpp:729-743 | loads and unloads keep every registry entry flagged loaded and filed under its own name |
| Assets.BatchKeepsValid | src/AssetManager.cpp:229-269 | a batch of loads keeps the registry well-formed |
| Assets.LoadIsIdempotent | src/AssetManager.cpp:592-600 | a second load of a loaded name reports success and changes nothing, whatever the path and the file now hold |
| Assets.ReloadRefreshesTexture | src/AssetManager.cpp:477-504 | reloading a loaded texture whose file decodes stores the file's current content and registers it again |
| Assets.ReloadOfMissingFileDropsAsset | src/AssetManager.cpp:477-504 | a reload whose file has gone fails and leaves the asset unloaded and unregistered |
| Assets.PreloadIsNoOp | src/AssetManager.cpp:522-544 | with a well-formed registry preloadAssets changes nothing |
| Assets.RegisterAllKeepsValid | src/AssetManager.cpp:354-393 | registering discovered files keeps the registry well-formed |
| Assets.FilterFiles | src/AssetManager.cpp:745-755 | the iteration keeps the regular files whose path passes the filter, in iteration order |
| Assets.ValidFilesExact | src/AssetManager.cpp:745-755 | a path is kept exactly when it passes the filter and is a regular file of the iteration |
| Assets.Scanned | src/AssetManager.cpp:330-352 | a directory that does not exist yields nothing |
| Assets.LoadedSizeAfterRegister | src/AssetManager.cpp:729-739 | registering a name makes the memory total the total of the other entries plus the file's size |
| Assets.AssetManager.constructor | src/AssetManager.cpp:14-15 | not initialised, no callback, hot reload off, every store empty |
| Assets.AssetManager.Initialize | src/AssetManager.cpp:19-40 | idempotent success; the first call registers, without loading, what the textures, audio and scenes folders hold |
| Assets.AssetManager.AutoDiscoverAssets | src/AssetManager.cpp:354-393 | the registry gains the discovered textures, then audio, then scenes, each under its stem |
| Assets.AssetManager.ScanForAssets | src/AssetManager.cpp:330-352 | the result is the scan of the directory, recursive or not |
| Assets.AssetManager.Shutdown | src/AssetManager.cpp:42-55 | a no-op unless initialised; then every store and the registry are emptied and the manager is off |
| Assets.AssetManager.UnloadAllAssets | src/AssetManager.cpp:271-297 | every store and the registry are empty |
| Assets.AssetManager.RegisterAsset | src/AssetManager.cpp:729-739 | the registry maps the name to a loaded entry with the path, type and file size |
| Assets.AssetManager.UnregisterAsset | src/AssetManager.cpp:741-743 | the name is removed from the registry and nothing else |
| Assets.AssetManager.LoadTexture | src/AssetManager.cpp:60-71 | refused with nothing changed when the manager is not initialised; otherwise the internal texture load |
| Assets.AssetManager.LoadAudio | src/AssetManager.cpp:97-104 | refused with nothing changed when the manager is not initialised; otherwise the internal audio load |
| Assets.AssetManager.LoadAudioInternal | src/AssetManager.cpp:105-143 | a name already in the store succeeds with nothing changed; a missing or undecodable file fails with nothing changed; otherwise the file is stored under the name, registered with its path, type and size, and reported to the load callback when one is set |
| Assets.AssetManager.LoadScene | src/AssetManager.cpp:160-170 | refused with nothing changed when the manager is not initialised; otherwise the internal scene load |
| Assets.AssetManager.LoadFont | src/AssetManager.cpp:194-204 | refused with nothing changed when the manager is not initialised; otherwise the internal font load |
| Assets.AssetManager.LoadTextureInternal | src/AssetManager.cpp:592-632 | a name already in the store succeeds with nothing changed; a missing or undecodable file fails with nothing changed; otherwise the file is stored under the name, registered with its path, type and size, and reported to the load callback when one is set |
| Assets.AssetManager.LoadSceneInternal | src/AssetManager.cpp:634-664 | a name already in the store succeeds with nothing changed; a missing or empty file fails with nothing changed; otherwise the text is stored, registered and reported to the load callback when one is set |
| Assets.AssetManager.LoadFontInternal | src/AssetManager.cpp:666-705 | a name already in the store succeeds with nothing changed; a missing or undecodable file fails with nothing changed; otherwise the file is stored under the name, registered with its path, type and size, and reported to the load callback when one is set |
| Assets.AssetManager.UnloadAsset | src/AssetManager.cpp:73-82 | a name in the type's store leaves the store and the registry; an absent name changes nothing; the registry stays well-formed |
| Assets.AssetManager.LoadAssetsFromDirectory | src/AssetManager.cpp:229-269 | refused with nothing changed when not initialised; otherwise every scanned path is loaded under its stem, no failure stops the batch, and the result is true exactly when every load succeeded |
| Assets.AssetManager.UnloadAssetsByType | src/AssetManager.cpp:299-326 | the names registered with the type are removed from its store, and those that were stored also from the registry; every store holds exactly its old entries, with their old values, less the collected names in the type's own store; events unchanged |
| Assets.AssetManager.ReloadAsset | src/AssetManager.cpp:477-504 | an unregistered name fails with nothing changed; otherwise the asset is unloaded by its registered type and loaded again from its registered path |
| Assets.AssetManager.PreloadAssets | src/AssetManager.cpp:522-544 | loading every registered entry not flagged loaded; a well-formed manager is left unchanged |
| Assets.AssetManager.GetTotalMemoryUsage | src/AssetManager.cpp:417-425 | the sum of the sizes of the registered entries flagged loaded |
| Assets.AssetManager.ValidateAsset | src/AssetManager.cpp:440-447 | true exactly when the name is registered and its file exists |
| Assets.AssetManager.ValidateAllAssets | src/AssetManager.cpp:449-459 | true exactly when no registered file is missing |
| Assets.AssetManager.GetMissingAssets | src/AssetManager.cpp:461-469 | each registered name whose file is missing, exactly once |
| Assets.AssetManager.SetAssetLoadCallback | src/AssetManager.cpp:472-474 | whether a load callback is installed is the argument |
| Assets.AssetManager.LoadAsset | src/AssetManager.cpp:243-264 | the load of the given category, refused with nothing changed when the manager is not initialised |
| Assets.AssetManager.NotifyLoaded | src/AssetManager.cpp:627-629 | one success event is recorded exactly when a load callback is installed |
| Assets.AssetManager.LoadPaths | src/AssetManager.cpp:239-268 | the loop loads every path under its stem in order and reports whether all loads succeeded |
| Assets.AssetManager.RegisterPaths | src/AssetManager.cpp:379-392 | the loop registers every discovered path under its stem, in order |
| Assets.LoadedSizeRemove | src/AssetManager.cpp:417-425 | the memory total splits into one entry's size plus the total of the others |
| FileWatching.ClassifyExtensionTable | src/FileWatcher.cpp:158-177 | each file type is returned exactly for the lower-cased extensions of its table, UNKNOWN for every other extension |
| FileWatching.WatcherAgreesWithAssetTables | src/FileWatcher.cpp:164-170 | the watcher and the asset manager agree on textures and scenes; watcher audio is asset-manager audio, but ".flac" is audio only for the asset manager |
| FileWatching.Poll | src/FileWatcher.cpp:82-98 | a polling pass removes no entry and never moves a baseline time backwards |
| FileWatching.SkewAloneFires | src/FileWatcher.cpp:143-156 | a file watched and then polled without being written fires exactly when the system-minus-file clock difference has grown between the two readings |
| FileWatching.WatchedFileDoesNotFireImmediately | src/FileWatcher.cpp:59-61 | a file just watched does not fire on a pass over the same disk with the same clock readings |
| FileWatching.SecondPassFiresNothing | src/FileWatcher.cpp:90-95 | a second pass over an unchanged disk with the same clock readings fires nothing and changes nothing |
| FileWatching.MissingFileStaysWatched | src/FileWatcher.cpp:85-88 | a file that has gone stays watched with its baseline and does not fire |
| FileWatching.FileWatcher.constructor | src/FileWatcher.cpp:8 | no watches, not running, no application |
| FileWatching.FileWatcher.Initialize | src/FileWatcher.cpp:12-26 | fails with nothing changed without an application; otherwise records it and starts running |
| FileWatching.FileWatcher.Shutdown | src/FileWatcher.cpp:28-42 | when running: stops, clears every watch and drops the application; otherwise nothing changes |
| FileWatching.FileWatcher.WatchFile | src/FileWatcher.cpp:44-64 | a missing path changes nothing; otherwise the entry is stored or replaced, UNKNOWN becomes the detected type, and the baseline is the write time of the file or directory converted with the clock readings |
| FileWatching.FileWatcher.UnwatchFile | src/FileWatcher.cpp:66-74 | the path is no longer watched and every other watch is kept |
| FileWatching.FileWatcher.ClearAllWatches | src/FileWatcher.cpp:76-80 | no watches remain |
| FileWatching.FileWatcher.CheckForUpdates | src/FileWatcher.cpp:82-98 | the table becomes the polled table; the callbacks invoked are exactly those of the entries that still exist, are newer than their baseline and have a callback, each once |
| FileWatching.FileWatcher.SetEnabled | src/FileWatcher.cpp:100-112 | the running flag equals the argument |
| FileWatching.FileWatcher.GetWatchedFileCount | src/FileWatcher.cpp:114-117 | the number of watched paths |
| FileWatching.FileWatcher.GetWatchedFiles | src/FileWatcher.cpp:119-129 | every watched path exactly once |
| Audio.Init | src/AudioManager.cpp:10-32 | succeeds exactly when already initialised or the device is ready; an initialised manager is unchanged; no sound is touched |
| Audio.LoadSpec | src/AudioManager.cpp:54-99 | a load succeeds exactly when initialised and the name is stored or the file is there and decodes; a failure or a known name changes nothing; a success stores the name |
| Audio.LoadTwice | src/AudioManager.cpp:64-69 | a second load of a loaded name succeeds and changes nothing, whatever its path |
| Audio.Unload | src/AudioManager.cpp:101-109 | the sound table becomes the old one without the name, every other sound kept with its value; an absent name changes nothing |
| Audio.LoadThenUnload | src/AudioManager.cpp:54-109 | unloading a freshly loaded name restores the previous state |
| Audio.Close | src/AudioManager.cpp:34-50 | a shut-down manager is off and holds no sound; shutting down an uninitialised manager changes nothing |
| Audio.NoLoadAfterClose | src/AudioManager.cpp:34-60 | after a shutdown every load fails |
| Audio.AudioManager.constructor | src/AudioManager.cpp:6 | not initialised, no sounds |
| Audio.AudioManager.Initialize | src/AudioManager.cpp:10-32 | succeeds exactly when already initialised or the audio device is ready; an initialised manager is unchanged |
| Audio.AudioManager.LoadSound | src/AudioManager.cpp:54-99 | refused unless initialised; a loaded name succeeds with nothing changed; a missing or undecodable file fails; otherwise the sound is stored under the name; a refused or repeated load leaves the object unchanged |
| Audio.AudioManager.UnloadSound | src/AudioManager.cpp:101-109 | the name is removed and every other sound kept; an absent name changes nothing |
| Audio.AudioManager.UnloadAllSounds | src/AudioManager.cpp:111-117 | no sound remains and the initialised flag is kept |
| Audio.AudioManager.Shutdown | src/AudioManager.cpp:34-50 | an initialised manager is switched off and holds no sound; otherwise nothing changes |
| HotReload.GetAssetIdFromPath | src/HotReloadManager.cpp:180-189 | a non-empty id is registered with the path; a path no id is registered with gives ""; "" is returned otherwise only when "" itself is registered with the path |
| HotReload.HotReloadManager.constructor | src/HotReloadManager.cpp:10-12 | no application, managers or registrations; disabled; a fresh idle watcher |
| HotReload.HotReloadManager.Initialize | src/HotReloadManager.cpp:16-38 | succeeds exactly when the application and both managers are given; a failure changes nothing; a success records them, starts the watcher and enables reloading |
| HotReload.HotReloadManager.Enable | src/HotReloadManager.cpp:148-152 | reloading and the watcher are on |
| HotReload.HotReloadManager.Disable | src/HotReloadManager.cpp:154-158 | reloading and the watcher are off |
| HotReload.HotReloadManager.Shutdown | src/HotReloadManager.cpp:40-53 | disabled, watcher stopped, every registry empty, no application or managers |
| HotReload.HotReloadManager.RegisterScene | src/HotReloadManager.cpp:55-68 | nothing changes while disabled; otherwise the scene is registered with the path and the path is watched as a scene with the scene handler |
| HotReload.HotReloadManager.RegisterAudio | src/HotReloadManager.cpp:70-83 | nothing changes while disabled; otherwise the sound is registered with the path and the path is watched as audio with the audio handler |
| HotReload.HotReloadManager.ReloadAudio | src/HotReloadManager.cpp:127-146 | an unregistered path changes nothing; otherwise the sound is loaded again through the audio manager, which keeps a sound already loaded |
| HotReload.HotReloadManager.ReloadScene | src/HotReloadManager.cpp:85-125 | an unregistered path changes nothing; for the current scene the effects of HotReload.ReloadCurrent (same scene and definition; restarted with a fresh world built from its definition at the manager's screen size, and reset counts, exactly when the load reports success, otherwise nothing changes; a name not yet stored gains the fresh scene read from a valid file); a scene stored under the name that is current or the transition's target is kept as it is; any other stored scene ends holding the definition read from the file, or is gone; a name that is neither stored nor current keeps the current and next scenes, and gains exactly the fresh scene read from a valid file, the scene map being otherwise unchanged |
| HotReload.ReplaceScene | src/HotReloadManager.cpp:111-123 | a scene stored under the name that is the current scene or the transition's target is left untouched and the manager's scenes and pointers are unchanged; any other stored scene ends holding the definition read from its file, as a new scene, or is gone when the file cannot be read or its definition is invalid; a name not stored leaves the current and next scenes as they were and gains exactly a fresh scene holding a valid definition read from the file, with the map otherwise unchanged |
| HotReload.ReloadCurrent | src/HotReloadManager.cpp:96-110 | the current scene stays current with its own definition; when loadSceneFromFile reports success (the file was read and its scene is either already loaded under the name or valid) the scene is restarted: loaded, active, a fresh world built from its definition at the manager's screen size (Built), the manager's audio passed on, counts reset to the definition's lists, no completion recorded; otherwise the manager and its scenes are unchanged; the map is kept when the name was stored, and otherwise gains exactly the fresh scene holding the valid definition read from the file |
| GameStates.GameStateManager.constructor | src/GameState.cpp:3-4 | the game starts PLAYING with a zero game-over timer |
| GameStates.GameStateManager.SetState | src/GameState.cpp:6-11 | the state becomes the argument; entering GAME_OVER restarts the timer, any other state keeps it |
| GameStates.GameStateManager.Update | src/GameState.cpp:13-17 | the state is kept; the timer advances by the step only in GAME_OVER |
| GameStates.GameStateManager.TriggerGameOver | src/GameState.cpp:19 | GAME_OVER with a zero timer |
| GameStates.GameStateManager.ResetGame | src/GameState.cpp:21-24 | PLAYING with a zero timer |
| Objects.PatternOfCode | include/Enemy.h:5-10 | casting an integer to a movement pattern keeps the code; only 0 to 3 name an enumerator |
| Objects.PatternCodeRoundTrip | include/Enemy.h:5-10 | casting a pattern to its code and back gives the pattern |
| Objects.Clamp | src/GameObject.cpp:38-43 | the clamped coordinate is at least 0, at most the limit when the limit is not negative, and unchanged when already in range |
| Objects.ClampIdempotent | src/GameObject.cpp:38-43 | clamping twice is clamping once |
| Objects.ClampInto | src/GameObject.cpp:36-45 | the rectangle keeps its size, lies inside the screen when it fits, and is unchanged when already inside |
| Objects.CollisionSymmetricAndStrict | src/GameObject.cpp:48-51 | collision is symmetric, and rectangles that only touch along an edge do not collide |
| Objects.CollisionMeansCommonInterior | src/GameObject.cpp:48-51 | rectangles of positive size collide exactly when some point lies strictly inside both |
| Objects.CornersAreInside | src/GameObject.cpp:53-56 | the point test includes the edges: all four corners are inside |
| Objects.CenterIsInside | src/GameObject.cpp:9-12 | the centre lies in the rectangle, halfway between opposite edges |
| Objects.GameObject.constructor | src/GameObject.cpp:4-7 | the bounds, colour, kind and static flag are the arguments |
| Objects.GameObject.SetPosition | src/GameObject.cpp:14-19 | a static object keeps its bounds; any other takes the new position and keeps its size |
| Objects.GameObject.Move | src/GameObject.cpp:21-26 | a static object keeps its bounds; any other is shifted by the deltas |
| Objects.GameObject.ConstrainToBounds | src/GameObject.cpp:36-45 | a static object keeps its bounds; any other is clamped into the screen |
| Worlds.Enemy.constructor | src/Enemy.cpp:5-26 | a 40x40 non-static object typed OBSTACLE with speed 100, radius 80 for a circular pattern (50 otherwise), heading to B only on patrol |
| Worlds.Enemy.SetMovementSpeed | include/Enemy.h:42 | the speed is the argument |
| Worlds.Enemy.SetCircularMovement | src/Enemy.cpp:40-44 | circular pattern with the given centre and radius |
| Worlds.Enemy.SetPatrolMovement | src/Enemy.cpp:46-51 | patrol pattern between the two points, heading to B |
| Worlds.Survivors | src/GameWorld.cpp:230-253 | the objects handleCollisions keeps are never more than it was given |
| Worlds.SurvivorsAreUncollected | src/GameWorld.cpp:236-237 | an object survives exactly when it is in the world and is not a collectible touching the player |
| Worlds.SurvivorsDistinct | src/GameWorld.cpp:230-253 | erasing keeps the objects distinct |
| Worlds.KeepsPlayer | src/GameWorld.cpp:236-237 | the player object itself is never erased |
| Worlds.CountKind | src/GameWorld.cpp:30-102 | a count of objects of a kind never exceeds the number of objects |
| Worlds.CountKindZero | src/GameWorld.cpp:30-102 | the count of a kind is 0 exactly when no object has that kind |
| Worlds.GameWorld.constructor | src/GameWorld.cpp:7-11 | no objects, enemies or player; a 640x480 screen, a 2000x1500 world, camera following at speed 5, no audio manager; the game is PLAYING |
| Worlds.GameWorld.Initialize | src/GameWorld.cpp:30-102 | the screen size is set; the world holds the player at (100, 100) first, then the nine obstacles and the twelve collectibles at their table positions, and the seven enemies with their positions and patterns; it counts one player, nine obstacles and twelve collectibles; the game is reset to PLAYING |
| Worlds.GameWorld.PlaceDefaults | src/GameWorld.cpp:34-96 | the objects and enemies of a freshly initialised world, in the engine's order, with their kinds and rectangles, counted by kind |
| Worlds.InitialCounts | src/GameWorld.cpp:62-87 | a player followed by nine obstacles and twelve collectibles counts 1, 9, 12 and no enemy |
| Worlds.GameWorld.InitializeEmpty | src/GameWorld.cpp:30-40 | the screen size is set and the world holds no objects, enemies or player |
| Worlds.GameWorld.UpdateScreenSize | src/GameWorld.cpp:302-305 | the screen size is the argument |
| Worlds.GameWorld.SetCameraFollowSpeed | include/GameWorld.h:89 | the follow speed is the argument |
| Worlds.GameWorld.EnableCameraFollow | include/GameWorld.h:90 | the follow flag is the argument |
| Worlds.GameWorld.SetAudioManager | include/GameWorld.h:93 | whether an audio manager is attached |
| Worlds.GameWorld.CreateDefaultObstacles | src/GameWorld.cpp:65-73 | nine OBSTACLE objects with the engine's rectangles are appended in order and the earlier objects kept |
| Worlds.GameWorld.CreateDefaultCollectibles | src/GameWorld.cpp:76-87 | twelve 30 x 30 COLLECTIBLE objects at the engine's positions are appended in order and the earlier objects kept |
| Worlds.GameWorld.CreateDefaultEnemies | src/GameWorld.cpp:90-96 | seven 40 x 40 enemies at the engine's positions, with their movement patterns, are appended in order and the earlier ones kept |
| Worlds.GameWorld.AddObject | src/GameWorld.cpp:104-106 | the object is appended |
| Worlds.GameWorld.CreatePlayer | src/GameWorld.cpp:108-115 | a fresh 50x50 non-static PLAYER object is appended and returned |
| Worlds.GameWorld.CreateObstacle | src/GameWorld.cpp:117-125 | a fresh static red OBSTACLE of the given bounds is appended |
| Worlds.GameWorld.CreateCollectible | src/GameWorld.cpp:127-134 | a fresh static yellow 30x30 COLLECTIBLE is appended |
| Worlds.GameWorld.CreateEnemy | src/GameWorld.cpp:136-142 | a fresh 40x40 enemy retyped ENEMY, with the pattern and speed 100, is appended to the enemies only |
| Worlds.GameWorld.HandleCollisions | src/GameWorld.cpp:230-253 | without a player nothing changes; otherwise exactly the collectibles touching the player are erased, the rest kept in order |
| Worlds.GameWorld.CheckPlayerCollisions | src/GameWorld.cpp:255-270 | true exactly when the player's rectangle moved to the point would collide with an obstacle other than the player |
| Worlds.GameWorld.Stepped | src/GameWorld.cpp:201-228 | the player keeps its size, and each coordinate either stays or moves by its full delta |
| Worlds.GameWorld.SteppedStaysClear | src/GameWorld.cpp:215-225 | a player clear of every obstacle stays clear, and an unobstructed move is taken in full |
| Worlds.GameWorld.UpdatePlayer | src/GameWorld.cpp:201-228 | a static player does not move; any other ends where Stepped puts it |
| Worlds.GameWorld.CheckPlayerEnemyCollisions | src/GameWorld.cpp:156-167 | without a player, once the game is over, or with no enemy touching, nothing changes; otherwise the game is over with a zero timer |
| Worlds.GameWorld.UpdateEnemies | src/GameWorld.cpp:144-154 | each enemy's moved bounds are clamped into the world |
| Worlds.GameWorld.MoveStep | src/GameWorld.cpp:176-193 | the player is clamped into the world, other non-static objects into the screen, static objects keep their bounds, enemies move and are clamped into the world |
| Worlds.GameWorld.CollideStep | src/GameWorld.cpp:195-197 | collected objects are erased; the game is over, with the game-over clock at zero, exactly when an enemy touches the player; otherwise the clock is kept |
| Worlds.GameWorld.Update | src/GameWorld.cpp:169-199 | the game-over clock runs in GAME_OVER; outside PLAYING nothing moves or goes; while PLAYING static objects keep their bounds, the others, the player and the enemies are clamped, collected objects go, and the game ends with the clock at zero exactly when an enemy touches the player |
| Worlds.EraseCollected | src/GameWorld.cpp:234-252 | the erase loop leaves exactly the survivors |
| Worlds.ConstrainObjects | src/GameWorld.cpp:176-181 | every non-static object other than the player is clamped into the screen; the others keep their bounds |
| Worlds.MoveEnemies | src/GameWorld.cpp:145-153 | enemy i takes its moved bounds clamped into the world |
| Worlds.PlayerPointerLostAsWritten | src/GameWorld.cpp:245-248 | as written, collecting the object just before the player sets the player pointer to null although the player is still in the world |
| Worlds.NullDereferenceAsWritten | src/GameWorld.cpp:236 | as written, a further collectible after that dereferences the null player pointer |
| Worlds.EraseAsWrittenBehindPlayer | src/GameWorld.cpp:234-252 | once the loop has passed the player, the loop as written erases what the corrected one does and keeps the player pointer |
| Worlds.PlayerFirstAgrees | src/GameWorld.cpp:30-102 | in a world whose first object is the player, as initialize builds it, the loop as written agrees with the corrected erase |
| SceneData.NewEnemy | include/SceneData.h:39-51 | an enemy record keeps its position, pattern and speed, its patrol points lie 100 to either side on its own row, and its circle radius is positive |
| SceneData.DefaultsAreUsable | include/SceneData.h:13-122 | a default definition is named, holds no objects and no successor, completes manually, and spawns inside a positive world with a positive camera speed; the default tile map is off at 64x64; the default transition is a timed fade |
| Scenes.CreateObstacles | src/Scene.cpp:192-203 | one static obstacle object per obstacle record, in order and with the record's bounds and colour, is appended to the world |
| Scenes.CreateCollectibles | src/Scene.cpp:205-215 | one collectible object per collectible record, in order and with the record's position and colour, is appended to the world |
| Scenes.CreateEnemies | src/Scene.cpp:217-239 | one enemy per enemy record, in order, with the record's speed, its patrol points on patrol and its centre and radius on a circle |
| Scenes.AddEnemy | src/Scene.cpp:222-237 | one new enemy is appended to the world, at the record's position with its pattern and speed, its patrol points on patrol and its centre and radius on a circle |
| Scenes.BuiltCollectibleCount | src/Scene.cpp:17-56 | a world built from a definition holds exactly as many collectibles and enemies as the definition lists |
| Worlds.CountNone | src/Scene.cpp:113-121 | a list with no object of a kind counts zero of it |
| Worlds.CountAll | src/Scene.cpp:113-121 | a list of objects all of one kind counts all of them |
| Worlds.CountKindAppend | src/Scene.cpp:113-121 | counting a kind over two lists adds the two counts |
| Scenes.CountCollectibles | src/Scene.cpp:114-121 | the counting loop returns the number of COLLECTIBLE objects |
| Scenes.BuildWorld | src/Scene.cpp:17-56 | a fresh world at the screen size with the definition's camera follow speed and flag, no player pointer and a game being played; its objects are the player square at the spawn point, then one object per obstacle and per collectible, and one enemy per enemy record, in order; no audio manager; the world keeps the default 2000 x 1500 size, since applySceneSettings (src/Scene.cpp:158-171) has no setter for the definition's |
| Scenes.Populate | src/Scene.cpp:176-190 | the player at the spawn point first, then the obstacles, then the collectibles, and the enemies, each as the definition lists them |
| Scenes.Scene.constructor | src/Scene.cpp:5-13 | a scene holds its definition and starts unloaded, inactive, without a world and with zero counts |
| Scenes.Scene.LoadScene | src/Scene.cpp:17-56 | always succeeds; a loaded scene is kept as it is; otherwise a fresh world is built from the definition, the initial counts are the definition's, and the scene is loaded and inactive |
| Scenes.Scene.UnloadScene | src/Scene.cpp:58-67 | an unloaded scene keeps its state; a loaded one drops its world and ends inactive and unloaded |
| Scenes.Scene.ActivateScene | src/Scene.cpp:69-78 | the scene becomes active exactly when it is loaded, and stays active if it was |
| Scenes.Scene.DeactivateScene | src/Scene.cpp:80-83 | the scene is inactive |
| Scenes.Scene.IsSceneComplete | src/Scene.cpp:106-131 | false unless loaded; with collectibles_complete true exactly when no COLLECTIBLE is left, with enemies_defeat exactly when no enemy is left, otherwise false |
| Scenes.Scene.Update | src/Scene.cpp:85-97 | unless the scene is loaded and active nothing in the scene or its world changes; otherwise the world takes the full new state Scenes.Scene.Advance states (the moves, clamps, erasures, game state and clock of Worlds.GameWorld.Update), and the completion latch is set once the scene is complete and is never cleared |
| Scenes.Scene.Advance | src/Scene.cpp:89-96 | the world's new state is the one Worlds.GameWorld.Update gives: while PLAYING the player is clamped into the world, other non-static objects into the screen, static objects keep their bounds, enemies take their clamped moves, the objects become the survivors of the collisions, and the game is over with the clock at zero exactly when an enemy touches the player, the clock being kept otherwise; outside PLAYING objects, enemies, bounds and state are kept and the clock runs in GAME_OVER; the latch is set once the scene is complete |
| Scenes.Scene.Latch | src/Scene.cpp:92-96 | the latch is set exactly when it was set or the scene is complete |
| Scenes.Scene.SetDefinition | src/Scene.cpp:133-144 | the definition is replaced; a loaded scene is rebuilt from it at 800x600 and ends inactive |
| Scenes.Scene.SetAudioManager | src/Scene.cpp:146-150 | the world, when there is one, records the audio manager and nothing else of it changes |
| Scenes.Scene.UpdateScreenSize | src/Scene.cpp:152-156 | the world, when there is one, takes the screen size |
| SceneFiles.Split | src/SceneManager.cpp:537-543 | splitting at a delimiter always yields at least one piece |
| SceneFiles.SplitNone | src/SceneManager.cpp:537-543 | text without the delimiter is a single piece |
| SceneFiles.SplitAfter | src/SceneManager.cpp:537-543 | a piece, the delimiter and the rest split into that piece followed by the rest's pieces |
| SceneFiles.LinesOfUnlines | src/SceneManager.cpp:489 | reading back, line by line, a text written line by line gives exactly the lines written |
| SceneFiles.SplitUnlines | src/SceneManager.cpp:489 | splitting at line breaks a text written line by line gives the lines written, then one empty piece after the final newline |
| SceneFiles.NatText | src/SceneManager.cpp:469 | a non-negative integer is written as a non-empty run of digits |
| SceneFiles.IntTextIsToken | src/SceneManager.cpp:469 | the written pattern code is one comma-free token |
| SceneFiles.ObstacleLines | src/SceneManager.cpp:457-460 | one line per obstacle |
| SceneFiles.CollectibleLines | src/SceneManager.cpp:463-465 | one line per collectible |
| SceneFiles.EnemyLines | src/SceneManager.cpp:468-471 | one line per enemy |
| SceneFiles.SaveDefinitionToFile | src/SceneManager.cpp:426-476 | a file that cannot be opened gives false and an unchanged disk; otherwise true, the file holds the saved text and every other file is unchanged |
| SceneFiles.IndexOf | src/SceneManager.cpp:501 | the first index of the character, or -1 exactly when it does not occur |
| SceneFiles.IndexAfterKey | src/SceneManager.cpp:501-505 | in a line written as key=value, with no '=' in the key, the first '=' directly follows the key |
| SceneFiles.TruncToInt | src/SceneManager.cpp:572 | truncation toward zero: the floor for non-negative numbers, the ceiling for negative ones |
| SceneFiles.ReadAll | src/SceneManager.cpp:541-543 | when every token reads, one number per token |
| SceneFiles.ProcessLine | src/SceneManager.cpp:490-576 | one line of the reading loop gives the next section and definition, or the exception |
| SceneFiles.LoadSceneDefinitionFromFile | src/SceneManager.cpp:478-582 | a file that does not open is reported as such, otherwise the lines are read in order into the definition, and an unreadable number ends the read with the exception |
| SceneFiles.ParseLineRules | src/SceneManager.cpp:490-576 | empty and comment lines change nothing; a bracketed line switches the section; a key line outside the list sections sets a known key; a list line appends a record only when it has enough numbers |
| SceneFiles.ApplyKeyKeepsLists | src/SceneManager.cpp:501-535 | a setting line never changes the obstacle, collectible or enemy lists |
| SceneFiles.AddRecordAppends | src/SceneManager.cpp:536-573 | a record line changes only its own section's list, by exactly one record when it has enough values and by none otherwise |
| SceneFiles.UnknownKeysIgnored | src/SceneManager.cpp:507-533 | a key no section knows leaves the definition unchanged |
| SceneFiles.ParseLinesOnlyAppends | src/SceneManager.cpp:536-576 | reading never drops a record: every list of the result extends the one it started from |
| SceneFiles.RereadObstacles | src/SceneManager.cpp:545-548 | an obstacle read back keeps its four numbers and takes the default colour |
| SceneFiles.RereadCollectibles | src/SceneManager.cpp:558-560 | a collectible read back keeps its position and takes the default colour |
| SceneFiles.RereadEnemies | src/SceneManager.cpp:570-575 | an enemy read back keeps its position, pattern and speed and takes the default patrol points and radius |
| SceneFiles.ReloadedObstacles | src/SceneManager.cpp:545-548 | a reloaded obstacle list has the same length and, position by position, each obstacle's numbers are stof of their printed text and its colour the default |
| SceneFiles.ReloadedCollectibles | src/SceneManager.cpp:558-560 | a reloaded collectible list has the same length and, position by position, each position is stof of its printed text and the colour the default |
| SceneFiles.ReloadedEnemies | src/SceneManager.cpp:570-575 | a reloaded enemy list has the same length and, position by position, position and speed are stof of their printed text, the pattern is read from the re-read code and the patrol points and radius are the defaults |
| SceneFiles.FieldsOfTokens | src/SceneManager.cpp:541-543 | a comma-joined list of comma-free tokens splits back into the same tokens |
| SceneFiles.SplitOfJoin | src/SceneManager.cpp:541-543 | joining tokens with commas and splitting at commas gives the tokens back |
| SceneFiles.RecordLineIsRecord | src/SceneManager.cpp:490-498 | a saved record line is neither skipped nor taken as a header |
| SceneFiles.ReadAllOfReadable | src/SceneManager.cpp:541-543 | tokens that read one by one read as a whole |
| SceneFiles.ObstacleLineReadsBack | src/SceneManager.cpp:457-460 | a saved obstacle line, for any printer whose numbers are single tokens that stof reads, appends one obstacle whose four numbers are stof of their printed text, with the default colour |
| SceneFiles.CollectibleLineReadsBack | src/SceneManager.cpp:463-465 | a saved collectible line appends one collectible whose position is stof of its printed text, with the default colour |
| SceneFiles.EnemyLineReadsBack | src/SceneManager.cpp:468-471 | a saved enemy line appends one enemy whose position and speed are stof of their printed text and whose pattern is recovered from the re-read pattern code |
| SceneFiles.SettingsReadBack | src/SceneManager.cpp:436-454 | the saved settings lines set the name, description, successor, trigger, music and camera switch exactly, the world size, follow speed and spawn to stof of their printed text, and end in the PLAYER section |
| SceneFiles.SavedLinesReadBack | src/SceneManager.cpp:426-582 | the whole saved text read into a default definition gives the reloaded definition: text fields and camera switch exact, every number stof of its printed text, every list of the same length and order |
| SceneFiles.SaveThenLoad | src/SceneManager.cpp:426-582 | saving and loading gives the reloaded definition; name, description, successor, trigger, music, camera switch and the three list lengths are those of the saved definition; when stof reads every printed number of the definition back exactly, the load gives exactly its persisted part |
| SceneFiles.OneLineSaved | src/SceneManager.cpp:436-471 | every saved line is a single line when the text fields have no line break and every printed number is a single token |
| SceneFiles.PersistedIsStable | src/SceneManager.cpp:426-582 | the persisted part of a definition is its own persisted part: the fields the file does not carry stay at their defaults |
| SceneFiles.ReloadedIsPersisted | src/SceneManager.cpp:426-582 | when stof reads every printed number of the definition back exactly and its enemy patterns are well formed, the reloaded definition is exactly the persisted part |
| SceneManagement.DefaultSceneIsUsable | src/SceneManager.cpp:260-277 | the default scene is accepted exactly when it is named; it completes on its collectibles, its two obstacles do not collide, and its objects lie in its world |
| SceneManagement.SaveThenLoadScene | src/SceneManager.cpp:63-79 | a scene saved to a file and loaded from it comes back as its reloaded definition (numbers as stof of their printed text), a nameless one taking the name it is loaded under |
| SceneManagement.DanglingNextAsWritten | src/SceneManager.cpp:81-98 | as written, unloading the scene a transition is heading for removes it from the map while nextScene still points at it |
| SceneManagement.UnloadedKeepsPointers | src/SceneManager.cpp:81-98 | with the pending scene guarded too, the map only shrinks and the current and next scenes stay stored |
| SceneManagement.AllStoredAdd | src/SceneManager.cpp:58 | a new, inactive scene stored under a new name keeps the stored scenes' invariant |
| SceneManagement.InjectiveAdd | src/SceneManager.cpp:58 | a new scene stored under a new name keeps every scene under one name |
| SceneManagement.KeepsOtherNames | src/SceneManager.cpp:58 | storing under a new name keeps what every other name maps to |
| SceneManagement.AllStoredRemove | src/SceneManager.cpp:94-95 | removing a stored scene keeps the others' invariant |
| SceneManagement.NewLoadedScene | src/SceneManager.cpp:46-56 | a fresh loaded and inactive scene built from the definition, its world holding the audio manager when the manager has one |
| SceneManagement.Reload | src/SceneManager.cpp:162-174 | the scene is rebuilt from its own definition at the screen size, loaded and active, with the audio manager reattached |
| SceneManagement.Rebuild | src/SceneManager.cpp:165-167 | the scene keeps its definition and is loaded again, inactive, with a new world built from that definition and no audio manager, and its counts taken afresh |
| SceneManagement.AttachAudio | src/SceneManager.cpp:169-171 | the rebuilt world gains the audio manager and keeps everything built from the definition |
| SceneManagement.SwitchActive | src/SceneManager.cpp:304-327 | the previous scene is deactivated and the next activated, so only the next one is active |
| SceneManagement.SceneManager.constructor | src/SceneManager.cpp:8-11 | no scenes, no transition and an 800x600 screen |
| SceneManagement.SceneManager.Initialize | src/SceneManager.cpp:15-22 | the screen size is recorded and the call succeeds |
| SceneManagement.SceneManager.LoadSceneFromDefinition | src/SceneManager.cpp:32-61 | a name already loaded succeeds with nothing changed; an invalid definition is refused with nothing changed; otherwise a fresh loaded scene is stored under the name |
| SceneManagement.SceneManager.LoadSceneFromFile | src/SceneManager.cpp:63-79 | a file that does not open is refused, an unreadable number throws with nothing changed, otherwise the read definition, named after the scene when nameless, is loaded as loadSceneFromDefinition loads it |
| SceneManagement.SceneManager.UnloadScene | src/SceneManager.cpp:81-98 | an unknown name, the current scene and the pending scene are kept; any other scene is unloaded and removed |
| SceneManagement.SceneManager.UnloadSceneAsWritten | src/SceneManager.cpp:81-98 | as written only the current scene is protected, so during a transition the pending scene can be removed while nextScene points at it |
| SceneManagement.SceneManager.UnloadAllScenes | src/SceneManager.cpp:100-108 | every stored scene is unloaded, the map is emptied and there is no current or next scene |
| SceneManagement.UnloadEach | src/SceneManager.cpp:101-103 | every scene of the map ends unloaded and inactive |
| SceneManagement.SceneManager.Shutdown | src/SceneManager.cpp:24-30 | all scenes unloaded, no transition and no audio manager |
| SceneManagement.SceneManager.FinishTransition | src/SceneManager.cpp:304-327 | the next scene becomes current and the only active one, and no transition remains |
| SceneManagement.SceneManager.ChangeScene | src/SceneManager.cpp:110-151 | refused while a transition runs or for an unknown name; the current scene's name succeeds without a transition; an INSTANT change switches at once; any other starts a transition to the named scene |
| SceneManagement.SceneManager.ChangeSceneInstant | src/SceneManager.cpp:153-156 | on success the named scene is current and active and no transition runs |
| SceneManagement.SceneManager.RestartCurrentScene | src/SceneManager.cpp:158-177 | with no current scene nothing changes; otherwise it keeps its definition, gets a fresh world built from that definition at the manager's screen size (Built) with the manager's audio, is loaded and active with its counts reset; every other stored scene is unchanged |
| SceneManagement.SceneManager.ShouldAutoProgress | src/SceneManager.cpp:297-302 | true exactly when there is a current complete scene with a successor and no transition runs |
| SceneManagement.SceneManager.CheckAutoProgression | src/SceneManager.cpp:279-295 | when auto-progression is due and the successor is loaded, the manager heads for it with the default fade; otherwise nothing changes |
| SceneManagement.SceneManager.SaveSceneToFile | src/SceneManager.cpp:248-257 | an unknown name is refused with the disk unchanged; otherwise the scene's definition is saved as saveSceneDefinitionToFile saves it |
| SceneFiles.SceneLinesReadBack | src/SceneManager.cpp:436-440 | the saved SCENE section reads back its name, description, successor and trigger |
| SceneFiles.WorldLinesReadBack | src/SceneManager.cpp:442-445 | the saved WORLD section reads back the music exactly and the world size as stof of its printed text |
| SceneFiles.CameraLinesReadBack | src/SceneManager.cpp:447-450 | the saved CAMERA section reads back the follow switch exactly and the follow speed as stof of its printed text |
| SceneFiles.PlayerLinesReadBack | src/SceneManager.cpp:452-454 | the saved PLAYER section reads back the spawn point as stof of its printed coordinates |
| SceneFiles.ObstacleLinesReadBack | src/SceneManager.cpp:456-460 | the saved obstacle lines append exactly the reloaded obstacles, in order |
| SceneFiles.CollectibleLinesReadBack | src/SceneManager.cpp:462-465 | the saved collectible lines append exactly the reloaded collectibles, in order |
| SceneFiles.EnemyLinesReadBack | src/SceneManager.cpp:467-471 | the saved enemy lines append exactly the reloaded enemies, in order |
| SceneFiles.BlankLine | src/SceneManager.cpp:491-492 | an empty line changes nothing |
| SceneFiles.HeaderLine | src/SceneManager.cpp:495-498 | a bracketed name switches to that section |
| SceneManagement.SceneManager.Switch | src/SceneManager.cpp:123-150 | the named scene becomes the next one; the current scene's own name starts no transition; INSTANT switches at once; any other type starts a transition with that type |
| Validation.Count | include/SceneValidator.h:37-53 | a count of issues of one severity never exceeds the number of issues |
| Validation.CountsAddUp | include/SceneValidator.h:37-53 | every issue is counted once, as an error or as a warning |
| Validation.ErrorFreeCount | include/SceneValidator.h:37-44 | the error count is zero exactly when no issue is an error |
| Validation.ValidationResult.constructor | include/SceneValidator.h:23 | a fresh result is valid and holds no issues |
| Validation.ValidationResult.AddError | include/SceneValidator.h:25-29 | an ERROR issue is appended and the result becomes invalid |
| Validation.ValidationResult.AddWarning | include/SceneValidator.h:31-35 | a WARNING issue is appended and validity is unchanged |
| Validation.ValidationResult.GetErrorCount | include/SceneValidator.h:37-44 | the number of ERROR issues, which is zero exactly when the result is valid |
| Validation.ValidationResult.GetWarningCount | include/SceneValidator.h:46-53 | the number of WARNING issues, which with the error count makes up all issues |
| Validation.HitChecks | src/SceneValidator.cpp:83-89 | one check per obstacle |
| Validation.ObstacleRow | src/SceneValidator.cpp:213-222 | one overlap check for each later obstacle |
| Validation.CollectibleRow | src/SceneValidator.cpp:224-236 | one distance check for each later collectible |
| Validation.ReachabilityChecks | src/SceneValidator.cpp:239-253 | one reachability check per collectible |
| Validation.Report | include/SceneValidator.h:25-35 | a check that holds appends its issue, through addError or addWarning by its severity; one that does not appends nothing |
| Validation.ReportAll | src/SceneValidator.cpp:21-253 | the issues of the checks that hold are appended in check order |
| Validation.ValidateBasicProperties | src/SceneValidator.cpp:21-44 | the basic-property issues of the definition are appended |
| Validation.ValidateWorldSettings | src/SceneValidator.cpp:46-70 | the world and camera issues are appended |
| Validation.ValidatePlayerSpawn | src/SceneValidator.cpp:72-90 | the spawn issues are appended |
| Validation.ValidateObstacles | src/SceneValidator.cpp:92-118 | the obstacle issues are appended |
| Validation.ValidateCollectibles | src/SceneValidator.cpp:120-153 | the collectible issues are appended |
| Validation.ValidateEnemies | src/SceneValidator.cpp:155-209 | the enemy issues are appended |
| Validation.ValidateObjectOverlaps | src/SceneValidator.cpp:211-237 | the overlap warnings are appended |
| Validation.IsCollectibleReachable | src/SceneValidator.cpp:267-291 | the sampling loop returns exactly whether no sample on the segment from the spawn point lies in an obstacle |
| Validation.ValidateReachability | src/SceneValidator.cpp:239-253 | the reachability warnings are appended |
| Validation.Validate | src/SceneValidator.cpp:5-19 | a fresh result holding the issues of the eight checks in order, valid exactly when none of them is an error |
| Validation.OverlapIsSymmetric | src/SceneValidator.cpp:261-265 | overlap does not depend on the order of the two obstacles |
| Validation.OverlapIsSharedPoint | src/SceneValidator.cpp:255-265 | obstacles of non-negative size overlap exactly when they share a point, so touching edges count as overlap |
| Validation.CornersAreInside | src/SceneValidator.cpp:255-259 | every corner of an obstacle of non-negative size lies in it |
| Validation.RaisedMembers | src/SceneValidator.cpp:21-253 | an issue is reported exactly when a check that holds carries it |
| Validation.RaisedDistinct | src/SceneValidator.cpp:21-253 | checks carrying different issues report each issue at most once |
| Validation.ErrorFreeRaised | src/SceneValidator.cpp:21-253 | the checks report no error exactly when no error check holds |
| Validation.HitsExactly | src/SceneValidator.cpp:83-89 | the obstacle loop reports each obstacle containing the point, once, and nothing else |
| Validation.ObstacleRowExactly | src/SceneValidator.cpp:213-222 | the row of obstacle i warns once about each later obstacle overlapping it, and about nothing else |
| Validation.ObstaclePairsExactly | src/SceneValidator.cpp:213-222 | the overlap loops warn exactly once for each pair i < j of overlapping obstacles and about no other obstacle pair |
| Validation.OneWarningPerOverlappingPair | src/SceneValidator.cpp:213-222 | each unordered overlapping pair gets one warning, naming the lower index first |
| Validation.HitsErrorFree | src/SceneValidator.cpp:83-89 | the obstacle loop reports an error exactly when it probes the spawn point or a collectible and some obstacle contains the point |
| Validation.ObstacleChecksErrorFree | src/SceneValidator.cpp:94-117 | an obstacle raises no error exactly when its width and height are positive |
| Validation.CollectibleChecksErrorFree | src/SceneValidator.cpp:129-147 | a collectible raises no error exactly when no obstacle contains it |
| Validation.EnemyChecksErrorFree | src/SceneValidator.cpp:163-203 | an enemy raises no error exactly when its speed is positive and, on a circle, its radius is positive |
| Validation.CollectiblePairsWarnOnly | src/SceneValidator.cpp:224-236 | collectibles close to each other only warn |
| Validation.BasicErrorFree | src/SceneValidator.cpp:21-44 | the basic checks raise no error exactly when the name is not empty |
| Validation.WorldErrorFree | src/SceneValidator.cpp:46-70 | the world checks raise no error exactly when the world size and the camera speed are positive |
| Validation.SpawnErrorFree | src/SceneValidator.cpp:72-90 | the spawn checks raise no error exactly when the spawn point lies in the world and in no obstacle |
| Validation.ObstacleErrorFree | src/SceneValidator.cpp:92-118 | the obstacle checks raise no error exactly when every obstacle has a positive size |
| Validation.CollectibleErrorFree | src/SceneValidator.cpp:120-153 | the collectible checks raise no error exactly when a collectibles_complete scene has collectibles and no obstacle contains one |
| Validation.EnemyErrorFree | src/SceneValidator.cpp:155-209 | the enemy checks raise no error exactly when an enemies_defeat scene has enemies and every enemy has a positive speed and, on a circle, a positive radius |
| Validation.OverlapAndReachabilityWarnOnly | src/SceneValidator.cpp:211-253 | overlap and reachability only warn |
| Validation.ValidationAccepts | src/SceneValidator.cpp:5-253 | validation reports no error exactly when the definition meets every error rule together |
| Validation.IssuesErrorFree | src/SceneValidator.cpp:5-19 | the combined report has no error exactly when none of the eight checks reports one |
| Validation.ValidatorIsStricter | src/SceneManager.cpp:410-424 | a definition the validator passes without error is one the scene manager's own check accepts |
| Validation.DefaultSceneValidates | src/SceneManager.cpp:260-277 | the scene manager's default scene passes validation without error exactly when it is named |
| Validation.DefaultSceneAcceptable | src/SceneManager.cpp:260-277 | the default scene meets every error rule exactly when its name is not empty |
| Tiles.TextureQuad | src/Tile.cpp:24-30 | the four corners of an axis-aligned rectangle whose top-left corner is the texture position and whose sides are the texture size |
| Tiles.Tile.Default | src/Tile.cpp:3-6 | tile 0 named "Unknown", covering the whole texture, passable, untinted and opaque |
| Tiles.Tile.constructor | src/Tile.cpp:8-12 | the given id, name and texture rectangle, passable, untinted and opaque |
| Tiles.Tile.SetProperties | src/Tile.cpp:14-17 | the two collision flags are set and nothing else changes |
| Tiles.Tile.SetVisualProperties | src/Tile.cpp:19-22 | the tint and the opacity are set and nothing else changes |
| Tiles.Tile.GetTextureQuad | src/Tile.cpp:24-30 | the corners are those of the tile's texture rectangle |
| Tilesets.LoadedRows | src/Tileset.cpp:144-152 | the grass rows that load are exactly the listed rows whose image decodes, never more than listed |
| Tilesets.GrassTilesPassable | src/Tileset.cpp:118-141 | no grass tile is solid |
| Tilesets.IdsNamesAppend | src/Tileset.cpp:47-50 | storing one more tile adds exactly its id and its name to the tileset's indexes |
| Tilesets.Tileset.constructor | src/Tileset.cpp:5 | no tiles, no name, 64x64 pixel tiles |
| Tilesets.Tileset.SetName | include/Tileset.h:47 | the name is the argument |
| Tilesets.Tileset.TileById | src/Tileset.cpp:71-74 | null exactly for an unknown id; otherwise a stored tile with that id |
| Tilesets.Tileset.TileByName | src/Tileset.cpp:76-79 | null exactly for an unknown name; otherwise a stored tile with that name |
| Tilesets.Tileset.GetTileTexture | src/Tileset.cpp:81-84 | nothing exactly for an unknown name; otherwise the texture stored under it |
| Tilesets.Tileset.GetAllTiles | src/Tileset.cpp:86-93 | one entry per stored tile, including every tile reachable by id or by name |
| Tilesets.Tileset.LoadTileFromFile | src/Tileset.cpp:21-55 | succeeds exactly when the image decodes; a failure changes nothing; a success appends a fresh tile with the id and name, full texture and default flags, and indexes it by id and by name, overwriting an earlier entry |
| Tilesets.Tileset.AddTile | src/Tileset.cpp:63-69 | the new tile exactly when the image decodes, null with nothing changed otherwise |
| Tilesets.Tileset.LoadRow | src/Tileset.cpp:144-152 | one grass row: its tile is stored with the row's flags when the image decodes |
| Tilesets.Tileset.LoadRows | src/Tileset.cpp:144-152 | the tileset holds exactly the grass rows whose image decodes, in order |
| Tilesets.Tileset.SetupGrassTiles | src/Tileset.cpp:103-156 | the tiles are the loadable grass rows in order, indexed by their ids and names, and every one is walkable |
| Tilesets.Tileset.LoadGrassTileset | src/Tileset.cpp:57-61 | always succeeds, names the tileset "Grass Tileset" and loads the grass tiles |
| TileMaps.ResizeRow | src/TileMap.cpp:20-24 | resizing a row to w keeps its first cells and pads with zeros |
| TileMaps.ResizeRows | src/TileMap.cpp:20-24 | resizing the grid to h rows keeps its first rows and pads with empty rows |
| TileMaps.Resized | src/TileMap.cpp:20-24 | a resized grid has the new shape, keeps every old cell inside it, and is zero elsewhere |
| TileMaps.Truncate | src/TileMap.cpp:237-241 | conversion to int truncates toward zero |
| TileMaps.TruncateBetween | src/TileMap.cpp:237-241 | a non-negative number between n and n + 1 truncates to n |
| TileMaps.QuotientInUnit | src/TileMap.cpp:237-241 | an offset inside tile n divided by the tile size lies between n and n + 1 |
| TileMaps.TileSquareMapsBack | src/TileMap.cpp:237-241 | every offset inside tile n maps back to tile n |
| TileMaps.JustOutsideMapsToZero | src/TileMap.cpp:237-241 | an offset less than one tile to the left of or above the map maps to tile 0, as truncation toward zero does |
| TileMaps.TileMap.Default | src/TileMap.cpp:8-10 | no tileset, an empty 0x0 grid, 64x64 pixel tiles at the origin |
| TileMaps.TileMap.constructor | src/TileMap.cpp:12-25 | the tileset and size are the arguments, every valid cell holds 0, 64x64 pixel tiles at the origin |
| TileMaps.TileMap.ResizeGrid | src/TileMap.cpp:20-24 | the grid becomes the resized grid |
| TileMaps.TileMap.Initialize | src/TileMap.cpp:29-48 | refused with nothing changed exactly when there is no tileset; otherwise the tileset and size are set and the grid is resized, keeping the cells it had |
| TileMaps.TileMap.Clear | src/TileMap.cpp:50-54 | an empty 0x0 grid, on which every cell reads -1 |
| TileMaps.TileMap.IsValidCoordinate | src/TileMap.cpp:172-174 | a valid coordinate indexes a cell of the grid |
| TileMaps.TileMap.GetTile | src/TileMap.cpp:62-67 | the cell's value at a valid coordinate, -1 elsewhere |
| TileMaps.TileMap.SetTile | src/TileMap.cpp:56-60 | the cell at a valid coordinate takes the id and every other cell keeps its value; an invalid coordinate changes nothing |
| TileMaps.TileMap.Fill | src/TileMap.cpp:78-84 | every valid cell holds the id |
| TileMaps.TileMap.FillRect | src/TileMap.cpp:86-97 | exactly the valid cells inside the rectangle take the id; every other cell keeps its value |
| TileMaps.TileMap.GetTileObject | src/TileMap.cpp:69-76 | null exactly without a tileset, off the map or for an id the tileset lacks; otherwise the tile with the cell's id |
| TileMaps.TileMap.IsTileSolid | src/TileMap.cpp:243-246 | true exactly when the cell is on the map and its id names a solid tile of the tileset |
| TileMaps.TileMap.TileToWorldPosition | src/TileMap.cpp:232-235 | the map's position plus the tile indexes times the tile size |
| TileMaps.TileMap.WorldToTileInvertsTileToWorld | src/TileMap.cpp:232-241 | every point of a valid tile's square maps back to that tile |
| TileMaps.TileMap.IsPositionBlocked | src/TileMap.cpp:248-251 | only a map with a tileset can block a position |
| TileMaps.TileMap.PassableTilesetNeverBlocks | src/TileMap.cpp:243-251 | over a tileset whose tiles are all walkable, no cell is solid and no position is blocked |
| TileMaps.TileMap.SetName | include/TileMap.h:69 | the name is the argument |
| TileMaps.TileMap.SetWorldPosition | include/TileMap.h:70 | the position is the argument |
| TileMapManagement.KeyNames | src/TileMapManager.cpp:144-160 | every key of the map exactly once |
| TileMapManagement.TileMapManager.constructor | src/TileMapManager.cpp:4 | no tilesets, no maps and no current map |
| TileMapManagement.TileMapManager.LoadTileset | src/TileMapManager.cpp:8-19 | always succeeds, storing a fresh empty tileset with that name under the name |
| TileMapManagement.TileMapManager.LoadGrassTileset | src/TileMapManager.cpp:21-32 | always succeeds, storing under "grass" a fresh walkable tileset holding the loadable grass tiles |
| TileMapManagement.TileMapManager.GetTileset | src/TileMapManager.cpp:34-37 | null exactly for an unknown name, otherwise the stored tileset |
| TileMapManagement.TileMapManager.CreateTileMap | src/TileMapManager.cpp:39-58 | null with nothing stored exactly when the tileset is unknown; otherwise a fresh all-zero map of the size over that tileset is stored under the name and returned |
| TileMapManagement.TileMapManager.GetTileMap | src/TileMapManager.cpp:60-63 | null exactly for an unknown name, otherwise the stored map |
| TileMapManagement.TileMapManager.SetCurrentMap | src/TileMapManager.cpp:65-76 | succeeds exactly for a known name, making its map current; otherwise the current map is kept |
| TileMapManagement.TileMapManager.CreateDefaultGrassMap | src/TileMapManager.cpp:78-103 | the grass tileset is loaded when missing, a map of the size over it is stored under the name, and it becomes current only when there is none |
| TileMapManagement.TileMapManager.IsPositionBlocked | src/TileMapManager.cpp:122-127 | false without a current map; otherwise the current map's answer |
| TileMapManagement.TileMapManager.IsTileSolid | src/TileMapManager.cpp:129-135 | false without a current map; otherwise whether the tile under the position is solid |
| TileMapManagement.TileMapManager.QueriesAgree | src/TileMapManager.cpp:122-135 | the two collision queries agree everywhere |
| TileMapManagement.TileMapManager.ClearAll | src/TileMapManager.cpp:137-142 | no tilesets, no maps and no current map |
| TileMapManagement.TileMapManager.GetTilesetNames | src/TileMapManager.cpp:144-151 | every tileset name exactly once |
| TileMapManagement.TileMapManager.GetTileMapNames | src/TileMapManager.cpp:153-160 | every map name exactly once |
| Common.LastIndexBefore | include/FileBrowser.h:19 | an index below the bound holding the character, or -1 |
| Common.LastIndexOf | include/FileBrowser.h:19 | an index holding the character, or -1 |
| Common.LastIndexBeforeIsLast | include/FileBrowser.h:19 | no occurrence of the character lies between the index found and the bound |
| Common.LastIndexOfIsLast | include/FileBrowser.h:19 | no occurrence of the character follows the index found |
| Common.FileNameIsLastComponent | src/FileBrowser.cpp:110-113 | the file name is the part of the path after its last '/', and holds no '/' |
| Common.ExtensionStart | src/AssetManager.cpp:587-589 | the extension starts inside the name, or at its end when there is none |
| Common.PathParts | src/AssetManager.cpp:587-589 | the file name holds no '/', and an extension is one '.' followed by no other '.' |
| Common.StemExtensionSplit | src/AssetManager.cpp:242 | the stem followed by the extension is the file name, and the stem is never empty when there is an extension |
| FileBrowsing.MakeFileInfo | include/FileBrowser.h:15-24 | the four fields are the arguments; a directory or a name without '.' has no extension; otherwise the extension is the text after the last '.' of the name |
| FileBrowsing.TextAfterLastDotSplits | include/FileBrowser.h:19-21 | the text after the last '.' holds no '.', and the name is the text before that '.', the '.', and the text after it |
| FileBrowsing.MakeDefaultFileInfo | include/FileBrowser.h:15-16 | a file of size 0 by default |
| FileBrowsing.GetFileExtension | src/FileBrowser.cpp:115-122 | the path's extension without its leading '.', holding no '.' or '/' |
| FileBrowsing.GetFileExtensionShape | src/FileBrowser.cpp:115-122 | a path's extension is empty or a '.' followed by text without '.' or '/' |
| FileBrowsing.FileNameOfPlainName | src/FileBrowser.cpp:110-113 | a name without '/' is its own file name |
| FileBrowsing.ExtensionsAgree | src/FileBrowser.cpp:115-122 | for a plain name not starting with its only '.', the FileInfo extension and getFileExtension agree |
| FileBrowsing.HiddenFileExtensionsDiffer | src/FileBrowser.cpp:115-122 | for ".scene" the FileInfo extension is "scene" but getFileExtension gives "" |
| FileBrowsing.LexLessAsymmetric | src/FileBrowser.cpp:66-73 | std::string's less-than is asymmetric |
| FileBrowsing.LexLessSplits | src/FileBrowser.cpp:66-73 | if a < c then a < b or b < c, for every b |
| FileBrowsing.LexLessTotal | src/FileBrowser.cpp:66-73 | two strings neither less than the other are equal |
| FileBrowsing.BeforeAsymmetric | src/FileBrowser.cpp:66-73 | the listing order is asymmetric |
| FileBrowsing.NotBeforeTransitive | src/FileBrowser.cpp:66-73 | the listing order's complement is transitive, as std::sort requires |
| FileBrowsing.BeforeTotal | src/FileBrowser.cpp:66-73 | entries unordered either way are both directories or both files, with the same name |
| FileBrowsing.Insert | src/FileBrowser.cpp:66-73 | inserting adds the entry and keeps the others |
| FileBrowsing.InsertOrdered | src/FileBrowser.cpp:66-73 | inserting into an ordered listing keeps it ordered |
| FileBrowsing.SortListing | src/FileBrowser.cpp:66-73 | the sorted listing is a permutation of the input with directories first and then by name |
| FileBrowsing.FirstIsLeast | src/FileBrowser.cpp:66-73 | nothing in an ordered listing comes before its first entry |
| FileBrowsing.OrderedUnique | src/FileBrowser.cpp:66-73 | two ordered permutations of the same entries with distinct names are equal |
| FileBrowsing.SizablePrefix | src/FileBrowser.cpp:57-64 | the entries before the first one whose size cannot be read |
| FileBrowsing.Collected | src/FileBrowser.cpp:57-64 | one FileInfo per entry, in directory order |
| FileBrowsing.ListedMissing | src/FileBrowser.cpp:52-55 | a path that is not a directory lists nothing |
| FileBrowsing.ListedOrdered | src/FileBrowser.cpp:47-80 | when every size reads, the listing is ordered and holds one FileInfo per directory entry |
| FileBrowsing.ListedIsTheOnlyOrdering | src/FileBrowser.cpp:66-73 | any ordered arrangement of those entries with distinct names is the listing |
| FileBrowsing.ListDirectory | src/FileBrowser.cpp:47-80 | the listing: nothing for a missing directory, the entries read so far, unsorted, when a size cannot be read, otherwise all entries sorted |
| FileBrowsing.SceneFilesOf | src/FileBrowser.cpp:82-94 | exactly the non-directory entries with extension "scene" |
| FileBrowsing.SceneFilesOrdered | src/FileBrowser.cpp:82-94 | filtering an ordered listing keeps it ordered |
| FileBrowsing.ListSceneFiles | src/FileBrowser.cpp:82-94 | the scene files of the directory's listing, in listing order |
| FileBrowsing.Pow1024 | src/FileBrowser.cpp:172-175 | a power of 1024 is at least 1 |
| FileBrowsing.SizeUnit | src/FileBrowser.cpp:172-175 | the suffix index is at most 4, 0 exactly below 1024 bytes, and otherwise the largest power of 1024 not above the size |
| FileBrowsing.Decimal | src/FileBrowser.cpp:179 | a non-empty run of digits |
| FileBrowsing.ScaleStep | src/FileBrowser.cpp:172-175 | dividing by 1024 keeps size times 1024^k equal to the byte count, so the loop stops at the right unit |
| FileBrowsing.FormatFileSize | src/FileBrowser.cpp:167-185 | below 1024 the byte count and " B"; otherwise the size in the largest unit up to TB, with one decimal, and its suffix |
| Configuration.BoolToString | include/Settings.h:62-64 | "true" exactly for true, "false" otherwise |
| Configuration.BoolFromString | include/Settings.h:77-85 | "true" and "1" read as true, "false" and "0" as false, anything else as the default |
| Configuration.BoolRoundTrip | include/Settings.h:62-85 | a boolean written as text reads back as itself |
| Configuration.DefaultUsedExactlyWhenUnrecognised | include/Settings.h:77-85 | the default matters exactly for text that is none of the four recognised words |
| Configuration.LookupBool | include/Settings.h:92-98 | a missing key gives the default; a recognised value is read as a boolean |
| Configuration.StoreThenLookup | include/Settings.h:87-98 | after storing a boolean under a key, reading that key gives it back and every other key reads as before |
| Configuration.Settings.SetSetting | include/Settings.h:87-90 | the key's text is replaced, reads back as the value, and every other key reads as before |
| Configuration.Settings.GetSetting | include/Settings.h:92-98 | the stored boolean under the key, or the default when the key is missing |
| Input.Axis | src/InputManager.cpp:7-20 | -1 exactly when only the negative key is held, 1 exactly when only the positive key is, 0 otherwise |
| Input.GetMovementInput | src/InputManager.cpp:7-20 | left/right from A or Left against D or Right, up/down from W or Up against S or Down |
| Input.MovementBounded | src/InputManager.cpp:7-20 | each component is -1, 0 or 1, and opposite keys held together cancel |
| Input.InputManager.constructor | src/InputManager.cpp:3-5 | the right button not held, not just pressed, and the cursor at the origin |
| Input.InputManager.Update | src/InputManager.cpp:32-42 | the cursor is recorded; the button is just pressed exactly when it is down now and was not before; just-pressed never holds two updates running |

## Left out

- Threads: FileWatcher's watcher thread, its loop and sleep (src/FileWatcher.cpp:131-136), the mutex and the atomic flag are not modelled. One `checkForUpdates` pass is a single step that returns the paths whose callback fired. `processFileChange` (src/FileWatcher.cpp:179-193) only forwards to that callback and is not modelled separately.
- Callbacks: std::function callbacks are not modelled as code. A FileWatcher callback is a tag naming the handler. The asset-load callback is a flag plus a recorded event. SceneManager's scene-changed and transition-started callbacks (src/SceneManager.cpp:238-246) are not modelled.
- Filesystem, clock and decoders: `std::filesystem` (exists, file_size, last_write_time, directory iteration), readFileToString, `gl2d::Texture::loadFromFile`, `gl2d::Font::createFromFile` and raudio's `LoadSound` become the `Disk` value passed to each operation. A decode succeeds exactly when the file's `decodes` flag is set. A sound whose sample count is 0 is a file that does not decode. The two clock readings of getFileModificationTime, and its `now()` fallback (src/FileWatcher.cpp:143-156), are the `Clocks` argument. The `Disk` holds only regular files and directories, so an entry that is not a directory counts as a regular file: sockets, devices and broken symbolic links, for which `is_regular_file` is false (src/AssetManager.cpp:344, 750), are not modelled.
- Audio playback: playSound, playSoundMulti, stopSound, pauseSound, resumeSound, setSoundVolume, setSoundPitch, isSoundPlaying, setMasterVolume, stopAllSounds and getSoundsPlaying (src/AudioManager.cpp:119-212) act only on the audio device. The audio device's readiness is an argument of AudioManager.Initialize.
- AudioManager.isInitialized, AssetManager.isInitialized and the AssetManager getters (getTexture, getSceneData, getFont, the is*Loaded queries, getLoadedAssets, getAssetsByType, getAssetCount and getAssetCountByType): these are plain reads of the modelled maps and are not separate members.
- AssetManager placeholders: enableHotReload, checkForAssetChanges, setAssetPriority and loadAssetManifest (src/AssetManager.cpp:506-519, 546-549, 779-785) only print or set an unused flag.
- HotReloadManager: the stubs at src/HotReloadManager.cpp:192-213 do nothing and are not modelled. getWatchedFileCount and getWatchedFiles (src/HotReloadManager.cpp:160-166) return the modelled FileWatcher's answers. onSceneChanged and onAudioChanged (src/HotReloadManager.cpp:168-178) only call reloadScene and reloadAudio.
- SceneManager timing: update and updateTransition (src/SceneManager.cpp:179-191, 329-337) advance transition progress by float time and are not modelled. FinishTransition is the step they end in. getCurrentSceneName, hasScene and getScene are plain reads of the modelled fields.
- SceneManager.setAudioManager and SceneManager.updateScreenSize (src/SceneManager.cpp:219-236): these forward to every loaded scene and are not modelled. Scene.SetAudioManager and Scene.UpdateScreenSize model one scene.
- Scene: render (src/Scene.cpp:99-104) is not modelled. setupCamera and setupTilemap (src/Scene.cpp:241-266) have empty bodies. The world and music settings that applySceneSettings mentions are not applied by the source either.
- Rendering: every render function is left out (SceneManager transitions, GameWorld::render and renderGameOverBanner, TileMap::render, renderTile and calculateVisibleTileRange, TileMapManager::renderCurrentMap and renderMap). So are the print functions (TileMap::printMap and printTileInfo, Tileset::printTileInfo, and TileMapManager's print functions).
- Enemy movement: the sin/cos orbits and patrols of src/Enemy.cpp are not computed. The world's update receives the enemies' moved bounds as an argument.
- GameWorld camera: the camera easing of updateCamera (src/GameWorld.cpp:374-400) is not modelled.
- GameWorld tile system: the world's own TileMapManager and initializeTileSystem (src/GameWorld.cpp:402-411) are not part of the world model. TileMapManager is modelled on its own.
- Randomness: TileMap::createGrassMap (src/TileMap.cpp:99-170) paints random terrain. TileMapManagement.TileMapManager.CreateDefaultGrassMap leaves the new map's cells at zero.
- resetMap and resetCurrentMap: include/TileMapManager.h:52-53 declares them, but no source file defines them, so there is nothing to model.
- File dialogs: openFileDialog, saveFileDialog and their platform variants (src/FileBrowser.cpp:16-45, 188-429) run external programs and are not modelled.
- FileBrowser path helpers: directoryExists, fileExists, getParentDirectory, joinPaths, getCurrentDirectory and getSceneDirectory (src/FileBrowser.cpp:96-108, 124-165) are thin filesystem wrappers. getFileName is modelled as the shared file-name helper.
- FileBrowsing.FormatFileSize: "%.1f" is modelled as exact rounding of a real number with ties rounded up. printf rounds the binary double, so the printed tenth can differ on exact ties.
- Settings.cpp is not part of this model. This includes the Settings constructor, loading and saving the settings file, and the window and monitor settings. Only the bool instances of toString and fromString from include/Settings.h are modelled. The generic stream-based versions for other types are left out.
- InputManager: the GLFW window is replaced by arguments (the set of pressed keys, the cursor, the button state). isKeyPressed (src/InputManager.cpp:28-30) is a direct window query and is not modelled.
- Ownership: where the engine destroys a replaced tileset or map, the model keeps the object. A pointer to it then stays valid in the model.
- Integer width: int and size_t overflow are not modelled, since integers are unbounded. Floats are modelled as exact reals.
- TileMaps.TileMap.Initialize: it resizes the grid the way std::vector::resize does. Cells already inside the new bounds keep their ids, as in the source.
- TileMaps.Truncate: the float-to-int cast truncates toward zero. So a point up to one tile left of or above the map maps to tile index 0 (lemma JustOutsideMapsToZero). The model keeps this behaviour of the source.
- FileBrowsing.ListDirectory: a file_size exception ends the listing early. The entries collected so far are then returned in iteration order, without the sort, as the catch block in src/FileBrowser.cpp:75-77 does.
- FileBrowsing.GetFileExtension: path::extension() gives a hidden file such as ".scene" no extension, while FileInfo gives it "scene" (lemma HiddenFileExtensionsDiffer). Both behaviours are kept.
- Assets.AssetManager.ReloadAsset: it reads the path before the unload, as the code evidently intends; the read through the erased entry is the third row under Findings.
- TileMaps.TileMap.constructor, TileMaps.TileMap.Initialize, TileMapManagement.TileMapManager.CreateTileMap and TileMapManagement.TileMapManager.CreateDefaultGrassMap require a height of at least 0, and a width of at least 0 when the height is positive. With a negative size std::vector::resize throws (src/TileMap.cpp:21-23, 42-44), and the model does not cover that exception. Every caller in the engine passes constant sizes (src/GameWorld.cpp:404). The default size 50x50 of createDefaultGrassMap (include/TileMapManager.h:36) is not modelled: callers pass the size.
- Scenes.Scene.LoadScene: Scene::loadScene calls GameWorld::initializeEmpty, which the GameWorld header does not declare. It is modelled as a fresh world with the screen size and no objects (Worlds.GameWorld.InitializeEmpty).
- Worlds.GameWorld.CreatePlayer: createPlayer never sets the world's player pointer, so a world built by Scene has no player. Movement and collection then do nothing in that world, as in the source.
- HotReload.ReplaceScene: reloadScene unloads a changed scene with unloadScene as written (src/HotReloadManager.cpp:116). That erases a scene a transition is heading for and leaves nextScene dangling (second row under Findings). The model routes the reload through the corrected unload instead. Such a scene is kept with its old definition, and its reload is skipped.
- FileWatching.Poll: a pass uses one pair of clock readings. getFileModificationTime reads the system clock and the file clock at every call (src/FileWatcher.cpp:146-149), so two readings within a pass, or at watch time and at poll time, can differ. SkewAloneFires shows the effect of two different readings. WatchedFileDoesNotFireImmediately and SecondPassFiresNothing hold only when the readings are the same.
- Assets.Scanned: for a path that exists but is a regular file, the directory iterator throws filesystem_error (src/AssetManager.cpp:343, 748-749), and nothing in the engine catches it. The model returns no paths there. Assets.AssetManager.ScanForAssets and Assets.AssetManager.LoadAssetsFromDirectory inherit this.
- Tiles.Tile.SetVisualProperties: the default arguments of the declaration (a tint of all ones and an alpha of 1) are not modelled. Callers always pass both values.
- SceneFiles.SaveThenLoad: the concrete operator<< (six significant digits) and stof are parameters. The round trip is proved up to stof of the printed text. Exact equality is proved only under the premise that every printed number reads back exactly. A value such as 1234567, printed as 1.23457e+06 and read back as 1234570, falls outside that premise.

## Findings

| source | as written | input that shows it | evidently intended | confidence | as-written member | corrected member |
|---|---|---|---|---|---|---|
| src/GameWorld.cpp:230-253 | after erasing a collected object, handleCollisions sets `player` to null whenever the object that slid into the erased slot is the player, although the player is still in `gameObjects`; the next collectible then dereferences that null pointer | objects `[c, p]`, with collectible `c` overlapping player `p`, leave `[p]` with no player pointer; objects `[c, p, d]`, with `d` a collectible, dereference null | only collectibles are erased, so the player pointer should be kept | not executed; latent in the engine, because initialize puts the player first (Worlds.PlayerFirstAgrees) and worlds built by Scene have no player pointer | Worlds.PlayerPointerLostAsWritten, Worlds.NullDereferenceAsWritten | Worlds.GameWorld.HandleCollisions, Worlds.KeepsPlayer |
| src/SceneManager.cpp:81-98 | unloadScene protects only the current scene, so the scene a transition is heading for can be unloaded and erased while `nextScene` still points at it; finishTransition (src/SceneManager.cpp:304-327) then makes the freed scene current | changeScene("b") with a fading transition while "a" is current, then unloadScene("b") before the transition ends; the same path is reached when b's file changes during the transition, since reloadScene calls unloadScene on it (src/HotReloadManager.cpp:116) | the pending scene should be protected like the current one | not executed | SceneManagement.DanglingNextAsWritten, SceneManagement.SceneManager.UnloadSceneAsWritten | SceneManagement.SceneManager.UnloadScene, SceneManagement.UnloadedKeepsPointers, HotReload.ReplaceScene |
| src/AssetManager.cpp:485-500 | reloadAsset keeps a reference `info` into the registry entry, unloads the asset (which erases that entry when the store held it) and then reads `info.filepath` for the load, a use after free | a texture "hero" loaded from "hero.png", then reloadAsset("hero") | the path and type should be copied before the unload | not executed | Assets.ReloadAsWritten, Assets.ReloadOfLoadedTextureDangles | Assets.Reload, Assets.AssetManager.ReloadAsset, Assets.ReloadRefreshesTexture |
