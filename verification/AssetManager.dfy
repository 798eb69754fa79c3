// The asset manager: four category stores (textures, sounds, scene texts,
// fonts) and a metadata registry, all keyed by asset name, behind an
// "initialised" flag. Decoders and the file system are the Disk value.

module Assets {
  import opened Common

  datatype AssetType = TEXTURE | AUDIO | SCENE | FONT

  datatype AssetInfo = AssetInfo(name: string, filepath: string, assetType: AssetType, size: nat, isLoaded: bool)

  /** A decoded texture, sound or font: the file it was decoded from. */
  datatype Media = Media(source: string, file: FileEntry)

  /** One invocation of the load callback (it is only ever told of successes). */
  datatype LoadEvent = LoadEvent(name: string, assetType: AssetType, success: bool)

  // ---------------------------------------------------------------------
  // Extension tables

  const TextureExtensions: seq<string> := [".png", ".jpg", ".jpeg", ".bmp", ".tga"]
  const AudioExtensions: seq<string> := [".mp3", ".wav", ".ogg", ".flac"]
  const SceneExtensions: seq<string> := [".scene"]
  const FontExtensions: seq<string> := [".ttf", ".otf"]

  function ExtensionsOf(t: AssetType): seq<string>
  {
    match t
    case TEXTURE => TextureExtensions
    case AUDIO => AudioExtensions
    case SCENE => SceneExtensions
    case FONT => FontExtensions
  }

  /** getAssetTypeString: a display name per category; the "Unknown"
      default of the switch is unreachable. */
  function AssetTypeString(t: AssetType): (r: string)
    ensures r != "Unknown" && r != ""
    ensures r == "Scene" <==> t == SCENE
  {
    match t
    case TEXTURE => "Texture"
    case AUDIO => "Audio"
    case SCENE => "Scene"
    case FONT => "Font"
  }

  /** getAssetTypeFromExtension: case-insensitive table lookup, with
      TEXTURE for every extension the table does not know. */
  function AssetTypeFromExtension(extension: string): (t: AssetType)
    ensures Lower(extension) in ExtensionsOf(t) || (t == TEXTURE && forall u :: Lower(extension) !in ExtensionsOf(u))
  {
    var ext := Lower(extension);
    if ext in TextureExtensions then TEXTURE
    else if ext in AudioExtensions then AUDIO
    else if ext in SceneExtensions then SCENE
    else if ext in FontExtensions then FONT
    else TEXTURE
  }

  /** isValidAssetFile: the same tables, keyed by the path's extension, with no fallback. */
  predicate IsValidAssetFile(path: string, t: AssetType)
  {
    Lower(PathExtension(path)) in ExtensionsOf(t)
  }

  /** No extension belongs to two categories. */
  lemma TablesDisjoint(e: string, u: AssetType, v: AssetType)
    requires e in ExtensionsOf(u) && e in ExtensionsOf(v)
    ensures u == v
  {
  }

  /** The two tables agree: a path valid for t is classified as t, and the
      classification of any path is t exactly when the path is valid for t
      or t is the TEXTURE fallback for a path valid for nothing. */
  lemma ExtensionTablesAgree(path: string, t: AssetType)
    ensures AssetTypeFromExtension(PathExtension(path)) == t
            <==> IsValidAssetFile(path, t) || (t == TEXTURE && forall u :: !IsValidAssetFile(path, u))
  {
    var e := Lower(PathExtension(path));
    var c := AssetTypeFromExtension(PathExtension(path));
    forall u | e in ExtensionsOf(u) ensures u == c {
      TablesDisjoint(e, u, c);
    }
    assert forall u :: IsValidAssetFile(path, u) <==> e in ExtensionsOf(u);
  }

  /** Lower-casing before the lookup makes the classification case-insensitive. */
  lemma LowerIdempotent(s: string)
    ensures Lower(Lower(s)) == Lower(s)
  {
  }

  lemma ClassificationIgnoresCase(extension: string)
    ensures AssetTypeFromExtension(Lower(extension)) == AssetTypeFromExtension(extension)
  {
    LowerIdempotent(extension);
  }

  // ---------------------------------------------------------------------
  // The stores as a value, and each operation as a function of it

  datatype Stores = Stores(
    textures: map<string, Media>,
    audio: map<string, Media>,
    scenes: map<string, string>,
    fonts: map<string, Media>,
    registry: map<string, AssetInfo>,
    events: seq<LoadEvent>)
  {
    /** The names held by the store of category t. */
    function Names(t: AssetType): set<string>
    {
      match t
      case TEXTURE => textures.Keys
      case AUDIO => audio.Keys
      case SCENE => scenes.Keys
      case FONT => fonts.Keys
    }

    /** Every registry entry describes itself under its own name and is
        flagged loaded (registerAsset never records anything else). */
    ghost predicate Valid()
    {
      forall n :: n in registry ==> registry[n].name == n && registry[n].isLoaded
    }
  }

  const Empty := Stores(map[], map[], map[], map[], map[], [])

  /** registerAsset: the entry always says isLoaded = true. */
  function Register(reg: map<string, AssetInfo>, name: string, path: string, t: AssetType, disk: Disk): map<string, AssetInfo>
  {
    reg[name := AssetInfo(name, path, t, disk.SizeOf(path), true)]
  }

  /** The decoder accepts the file (texture id != 0, sampleCount != 0,
      font texture id != 0). */
  predicate Decodes(disk: Disk, path: string)
  {
    path in disk.files && disk.files[path].decodes
  }

  /** Whether a load of a name not yet in the store would succeed: textures,
      sounds and fonts need an existing file the decoder accepts; scene
      files only need to read back non-empty. */
  predicate Loadable(disk: Disk, t: AssetType, path: string)
  {
    if t == SCENE then disk.ReadText(path) != "" else disk.Exists(path) && Decodes(disk, path)
  }

  function Notify(s: Stores, callback: bool, name: string, t: AssetType): seq<LoadEvent>
  {
    if callback then s.events + [LoadEvent(name, t, true)] else s.events
  }

  /** load<Type>Internal: a name already in the category store is left as
      it is; otherwise the file is checked, decoded, stored and registered. */
  function LoadInternal(s: Stores, t: AssetType, name: string, path: string, disk: Disk, callback: bool): (bool, Stores)
  {
    if name in s.Names(t) then (true, s)
    else
      match t
      case SCENE =>
        var content := disk.ReadText(path);
        if content == "" then (false, s)
        else (true, s.(scenes := s.scenes[name := content], registry := Register(s.registry, name, path, t, disk),
                       events := Notify(s, callback, name, t)))
      case _ =>
        if !disk.Exists(path) then (false, s)
        else if !Decodes(disk, path) then (false, s)
        else
          var m := Media(path, disk.files[path]);
          var s1 := match t
            case TEXTURE => s.(textures := s.textures[name := m])
            case AUDIO => s.(audio := s.audio[name := m])
            case _ => s.(fonts := s.fonts[name := m]);
          (true, s1.(registry := Register(s.registry, name, path, t, disk), events := Notify(s, callback, name, t)))
  }

  /** A load succeeds exactly when the name is already stored or the file
      is loadable; only a fresh success changes anything, and it adds the
      name to its own category and registers it. */
  lemma LoadInternalSpec(s: Stores, t: AssetType, name: string, path: string, disk: Disk, callback: bool)
    ensures var r := LoadInternal(s, t, name, path, disk, callback);
            && (r.0 <==> name in s.Names(t) || Loadable(disk, t, path))
            && (!r.0 || name in s.Names(t) ==> r.1 == s)
            && r.1.Names(t) == (if r.0 then s.Names(t) + {name} else s.Names(t))
            && (r.1.registry == s.registry || r.1.registry == Register(s.registry, name, path, t, disk))
            && forall u :: u != t ==> r.1.Names(u) == s.Names(u)
    ensures var r := LoadInternal(s, t, name, path, disk, callback);
            r.0 && name !in s.Names(t) ==>
              && Holds(r.1, t, name, path, disk)
              && r.1.registry == Register(s.registry, name, path, t, disk)
              && r.1.events == s.events + (if callback then [LoadEvent(name, t, true)] else [])
              && Unload(r.1, t, name).(registry := s.registry, events := s.events) == s
  {
    if name !in s.Names(t) && Loadable(disk, t, path) {
      LoadInternalAdds(s, t, name, path, disk, callback);
    }
  }

  /** A fresh load of a loadable file stores and registers the name,
      records the event when there is a callback, and adds nothing else. */
  lemma LoadInternalAdds(s: Stores, t: AssetType, name: string, path: string, disk: Disk, callback: bool)
    requires name !in s.Names(t) && Loadable(disk, t, path)
    ensures var r := LoadInternal(s, t, name, path, disk, callback);
            && r.0 && Holds(r.1, t, name, path, disk)
            && r.1.registry == Register(s.registry, name, path, t, disk)
            && r.1.events == s.events + (if callback then [LoadEvent(name, t, true)] else [])
    ensures Unload(LoadInternal(s, t, name, path, disk, callback).1, t, name).(registry := s.registry, events := s.events) == s
  {
    LoadInternalUndone(s, t, name, path, disk, callback);
  }

  /** Nothing but the one entry is added: removing it gives the old
      stores back. */
  lemma LoadInternalUndone(s: Stores, t: AssetType, name: string, path: string, disk: Disk, callback: bool)
    requires name !in s.Names(t) && Loadable(disk, t, path)
    ensures Unload(LoadInternal(s, t, name, path, disk, callback).1, t, name).(registry := s.registry, events := s.events) == s
  {
    match t
    case SCENE => assert s.scenes[name := disk.ReadText(path)] - {name} == s.scenes;
    case TEXTURE => assert s.textures[name := Media(path, disk.files[path])] - {name} == s.textures;
    case AUDIO => assert s.audio[name := Media(path, disk.files[path])] - {name} == s.audio;
    case FONT => assert s.fonts[name := Media(path, disk.files[path])] - {name} == s.fonts;
  }

  /** The store of category t holds name with what a load of path puts
      there: the file's text for a scene, the decoded file otherwise. */
  predicate Holds(s: Stores, t: AssetType, name: string, path: string, disk: Disk)
  {
    match t
    case SCENE => name in s.scenes && s.scenes[name] == disk.ReadText(path)
    case TEXTURE => name in s.textures && path in disk.files && s.textures[name] == Media(path, disk.files[path])
    case AUDIO => name in s.audio && path in disk.files && s.audio[name] == Media(path, disk.files[path])
    case FONT => name in s.fonts && path in disk.files && s.fonts[name] == Media(path, disk.files[path])
  }

  /** load<Type>: refused while not initialised. */
  function Load(s: Stores, initialized: bool, t: AssetType, name: string, path: string, disk: Disk, callback: bool): (r: (bool, Stores))
    ensures !initialized ==> r == (false, s)
  {
    if !initialized then (false, s) else LoadInternal(s, t, name, path, disk, callback)
  }

  /** unload<Type>: only a name present in that category's store is
      removed, from the store and from the registry. */
  function Unload(s: Stores, t: AssetType, name: string): (r: Stores)
    ensures name !in r.Names(t)
    ensures name !in s.Names(t) ==> r == s
    ensures name in s.Names(t) ==> r.Names(t) == s.Names(t) - {name} && r.registry == s.registry - {name}
    ensures forall u :: u != t ==> r.Names(u) == s.Names(u)
    ensures r.textures == (if t == TEXTURE then s.textures - {name} else s.textures)
    ensures r.audio == (if t == AUDIO then s.audio - {name} else s.audio)
    ensures r.scenes == (if t == SCENE then s.scenes - {name} else s.scenes)
    ensures r.fonts == (if t == FONT then s.fonts - {name} else s.fonts)
    ensures r.events == s.events
  {
    if name !in s.Names(t) then s
    else
      var s1 := match t
        case TEXTURE => s.(textures := s.textures - {name})
        case AUDIO => s.(audio := s.audio - {name})
        case SCENE => s.(scenes := s.scenes - {name})
        case FONT => s.(fonts := s.fonts - {name});
      s1.(registry := s.registry - {name})
  }

  /** reloadAsset: unknown names fail; otherwise unload by the registered
      type and load again from the registered path. The path and type are
      taken before the unload erases the registry entry. */
  function Reload(s: Stores, initialized: bool, name: string, disk: Disk, callback: bool): (r: (bool, Stores))
    ensures name !in s.registry ==> r == (false, s)
  {
    if name !in s.registry then (false, s)
    else
      var info := s.registry[name];
      Load(Unload(s, info.assetType, name), initialized, info.assetType, name, info.filepath, disk, callback)
  }

  /** reloadAsset as written: the type is read through a reference to the
      registry entry, the unload then erases that entry whenever the store
      held the asset, and only afterwards is the path read through the same
      reference. None stands for that read of an erased entry. Where the
      store did not hold the asset the entry survives and the result is
      that of Reload. */
  function ReloadAsWritten(s: Stores, initialized: bool, name: string, disk: Disk, callback: bool): (r: Option<(bool, Stores)>)
    ensures name in s.registry && name in s.Names(s.registry[name].assetType) ==> r == None
    ensures !(name in s.registry && name in s.Names(s.registry[name].assetType)) ==>
              r == Some(Reload(s, initialized, name, disk, callback))
  {
    if name !in s.registry then Some((false, s))
    else
      var t := s.registry[name].assetType;
      var u := Unload(s, t, name);
      if name !in u.registry then None
      else Some(Load(u, initialized, t, name, u.registry[name].filepath, disk, callback))
  }

  /** A loaded texture whose file still decodes: Reload refreshes it, while
      the code as written reads its path from the erased registry entry. */
  lemma ReloadOfLoadedTextureDangles()
    ensures var path := "hero.png";
            var file := FileEntry(1, 0, "", true);
            var s := Empty.(textures := map["hero" := Media(path, file)],
                            registry := map["hero" := AssetInfo("hero", path, TEXTURE, 1, true)]);
            var disk := Disk(map[path := file], map[]);
            && ReloadAsWritten(s, true, "hero", disk, false) == None
            && Reload(s, true, "hero", disk, false).0
  {
    var path := "hero.png";
    var file := FileEntry(1, 0, "", true);
    var s := Empty.(textures := map["hero" := Media(path, file)],
                    registry := map["hero" := AssetInfo("hero", path, TEXTURE, 1, true)]);
    var disk := Disk(map[path := file], map[]);
    ReloadRefreshesTexture(s, "hero", disk, false);
  }

  /** loadAssetsFromDirectory, after the scan: every path is loaded under
      the name nameOf gives it (the manager passes Stem), no failure stops the batch, and the result is the
      conjunction of all the individual results. */
  function LoadBatch(s: Stores, t: AssetType, paths: seq<string>, nameOf: string -> string, disk: Disk, callback: bool): (r: (bool, Stores))
    decreases |paths|
  {
    if paths == [] then (true, s)
    else
      var last := paths[|paths| - 1];
      var prefix := LoadBatch(s, t, paths[..|paths| - 1], nameOf, disk, callback);
      var step := LoadInternal(prefix.1, t, nameOf(last), last, disk, callback);
      (prefix.0 && step.0, step.1)
  }

  /** One more path extends a batch by one load. */
  lemma BatchStep(s: Stores, t: AssetType, paths: seq<string>, nameOf: string -> string, disk: Disk, callback: bool, i: int,
                  acc: bool, before: Stores, ok: bool, after: Stores)
    requires 0 <= i < |paths|
    requires (acc, before) == LoadBatch(s, t, paths[..i], nameOf, disk, callback)
    requires (ok, after) == Load(before, true, t, nameOf(paths[i]), paths[i], disk, callback)
    ensures (acc && ok, after) == LoadBatch(s, t, paths[..i + 1], nameOf, disk, callback)
  {
    assert paths[..i + 1][..i] == paths[..i];
  }

  /** x is in the category store before the batch, or is the name of one
      of its loadable paths. */
  predicate BatchNamed(s: Stores, t: AssetType, paths: seq<string>, nameOf: string -> string, disk: Disk, x: string)
  {
    x in s.Names(t) || exists k :: 0 <= k < |paths| && Loadable(disk, t, paths[k]) && nameOf(paths[k]) == x
  }

  /** One more path names x exactly when it is loadable and named x. */
  lemma BatchNamedSnoc(s: Stores, t: AssetType, prefix: seq<string>, last: string, nameOf: string -> string, disk: Disk, x: string)
    ensures BatchNamed(s, t, prefix + [last], nameOf, disk, x)
            <==> BatchNamed(s, t, prefix, nameOf, disk, x) || (Loadable(disk, t, last) && nameOf(last) == x)
  {
    var paths := prefix + [last];
    if BatchNamed(s, t, paths, nameOf, disk, x) && x !in s.Names(t) {
      var k :| 0 <= k < |paths| && Loadable(disk, t, paths[k]) && nameOf(paths[k]) == x;
      if k < |prefix| {
        assert prefix[k] == paths[k];
      }
    }
    if BatchNamed(s, t, prefix, nameOf, disk, x) && x !in s.Names(t) {
      var k :| 0 <= k < |prefix| && Loadable(disk, t, prefix[k]) && nameOf(prefix[k]) == x;
      assert paths[k] == prefix[k];
    }
    if Loadable(disk, t, last) && nameOf(last) == x {
      assert paths[|prefix|] == last;
    }
  }

  /** The last load of a batch adds its name exactly when its path is
      loadable (or the name was there already). */
  lemma BatchNamesStep(s: Stores, t: AssetType, prefix: seq<string>, last: string, nameOf: string -> string, disk: Disk, callback: bool, x: string)
    requires forall y :: y in LoadBatch(s, t, prefix, nameOf, disk, callback).1.Names(t) <==> BatchNamed(s, t, prefix, nameOf, disk, y)
    ensures x in LoadBatch(s, t, prefix + [last], nameOf, disk, callback).1.Names(t)
            <==> BatchNamed(s, t, prefix + [last], nameOf, disk, x)
  {
    assert (prefix + [last])[..|prefix|] == prefix;
    LoadInternalSpec(LoadBatch(s, t, prefix, nameOf, disk, callback).1, t, nameOf(last), last, disk, callback);
    BatchNamedSnoc(s, t, prefix, last, nameOf, disk, x);
  }

  /** The names a batch leaves in the category store: those already there
      plus the name of every loadable path, whatever failed around it. */
  lemma {:induction false} BatchLoadsEveryLoadable(s: Stores, t: AssetType, paths: seq<string>, nameOf: string -> string, disk: Disk, callback: bool)
    ensures forall x :: x in LoadBatch(s, t, paths, nameOf, disk, callback).1.Names(t) <==> BatchNamed(s, t, paths, nameOf, disk, x)
    ensures forall u :: u != t ==> LoadBatch(s, t, paths, nameOf, disk, callback).1.Names(u) == s.Names(u)
    decreases |paths|
  {
    if paths != [] {
      var prefix, last := paths[..|paths| - 1], paths[|paths| - 1];
      assert paths == prefix + [last];
      BatchLoadsEveryLoadable(s, t, prefix, nameOf, disk, callback);
      LoadInternalSpec(LoadBatch(s, t, prefix, nameOf, disk, callback).1, t, nameOf(last), last, disk, callback);
      forall x
        ensures x in LoadBatch(s, t, paths, nameOf, disk, callback).1.Names(t) <==> BatchNamed(s, t, paths, nameOf, disk, x)
      {
        BatchNamesStep(s, t, prefix, last, nameOf, disk, callback, x);
      }
    }
  }

  /** The i-th load of a batch succeeds: its path is loadable, or its name
      is already in the store, from before the batch or from an earlier
      loadable path of the same batch. */
  predicate BatchStepSucceeds(s: Stores, t: AssetType, paths: seq<string>, nameOf: string -> string, disk: Disk, i: nat)
    requires i < |paths|
  {
    Loadable(disk, t, paths[i]) || BatchNamed(s, t, paths[..i], nameOf, disk, nameOf(paths[i]))
  }

  /** The batch reports success exactly when every one of its loads does. */
  lemma {:induction false} BatchResult(s: Stores, t: AssetType, paths: seq<string>, nameOf: string -> string, disk: Disk, callback: bool)
    ensures LoadBatch(s, t, paths, nameOf, disk, callback).0
            <==> forall i :: 0 <= i < |paths| ==> BatchStepSucceeds(s, t, paths, nameOf, disk, i)
    decreases |paths|
  {
    if paths != [] {
      var prefix, last := paths[..|paths| - 1], paths[|paths| - 1];
      assert paths == prefix + [last];
      BatchResult(s, t, prefix, nameOf, disk, callback);
      BatchLoadsEveryLoadable(s, t, prefix, nameOf, disk, callback);
      BatchResultStep(s, t, prefix, last, nameOf, disk, callback);
    }
  }

  lemma BatchResultStep(s: Stores, t: AssetType, prefix: seq<string>, last: string, nameOf: string -> string, disk: Disk, callback: bool)
    requires forall y :: y in LoadBatch(s, t, prefix, nameOf, disk, callback).1.Names(t) <==> BatchNamed(s, t, prefix, nameOf, disk, y)
    requires LoadBatch(s, t, prefix, nameOf, disk, callback).0
             <==> forall i :: 0 <= i < |prefix| ==> BatchStepSucceeds(s, t, prefix, nameOf, disk, i)
    ensures LoadBatch(s, t, prefix + [last], nameOf, disk, callback).0
            <==> forall i :: 0 <= i < |prefix| + 1 ==> BatchStepSucceeds(s, t, prefix + [last], nameOf, disk, i)
  {
    var paths := prefix + [last];
    assert paths[..|prefix|] == prefix;
    forall i | 0 <= i < |prefix|
      ensures BatchStepSucceeds(s, t, prefix, nameOf, disk, i) == BatchStepSucceeds(s, t, paths, nameOf, disk, i)
    {
      assert prefix[..i] == paths[..i];
    }
    var step := LoadInternal(LoadBatch(s, t, prefix, nameOf, disk, callback).1, t, nameOf(last), last, disk, callback);
    LoadInternalSpec(LoadBatch(s, t, prefix, nameOf, disk, callback).1, t, nameOf(last), last, disk, callback);
    assert LoadBatch(s, t, paths, nameOf, disk, callback).0 == (LoadBatch(s, t, prefix, nameOf, disk, callback).0 && step.0);
    assert step.0 == BatchStepSucceeds(s, t, paths, nameOf, disk, |prefix|);
  }

  /** Loads and unloads keep every registry entry well-formed. */
  lemma LoadKeepsValid(s: Stores, t: AssetType, name: string, path: string, disk: Disk, callback: bool)
    requires s.Valid()
    ensures LoadInternal(s, t, name, path, disk, callback).1.Valid()
    ensures Unload(s, t, name).Valid()
  {
  }

  lemma {:induction false} BatchKeepsValid(s: Stores, t: AssetType, paths: seq<string>, nameOf: string -> string, disk: Disk, callback: bool)
    requires s.Valid()
    ensures LoadBatch(s, t, paths, nameOf, disk, callback).1.Valid()
    decreases |paths|
  {
    if paths != [] {
      var n := |paths| - 1;
      BatchKeepsValid(s, t, paths[..n], nameOf, disk, callback);
      LoadKeepsValid(LoadBatch(s, t, paths[..n], nameOf, disk, callback).1, t, nameOf(paths[n]), paths[n], disk, callback);
    }
  }

  /** A second load of the same name is a no-op that reports success: the
      stored content can only be refreshed by an unload in between. */
  lemma LoadIsIdempotent(s: Stores, t: AssetType, name: string, path: string, path2: string, disk: Disk, disk2: Disk, callback: bool)
    requires LoadInternal(s, t, name, path, disk, callback).0
    ensures var s1 := LoadInternal(s, t, name, path, disk, callback).1;
            LoadInternal(s1, t, name, path2, disk2, callback) == (true, s1)
  {
  }

  /** Reloading a loaded texture whose file still decodes replaces the
      stored texture with the file's current content and registers it again. */
  lemma ReloadRefreshesTexture(s: Stores, name: string, disk: Disk, callback: bool)
    requires name in s.registry && s.registry[name].assetType == TEXTURE && name in s.textures
    requires Decodes(disk, s.registry[name].filepath)
    ensures var r := Reload(s, true, name, disk, callback);
            var path := s.registry[name].filepath;
            r.0 && r.1.textures == s.textures[name := Media(path, disk.files[path])]
            && r.1.registry == Register(s.registry, name, path, TEXTURE, disk)
  {
    var path := s.registry[name].filepath;
    var u := Unload(s, TEXTURE, name);
    assert u.textures == s.textures - {name};
    assert name !in u.textures;
    assert (s.textures - {name})[name := Media(path, disk.files[path])] == s.textures[name := Media(path, disk.files[path])];
    assert (s.registry - {name})[name := AssetInfo(name, path, TEXTURE, disk.SizeOf(path), true)]
        == s.registry[name := AssetInfo(name, path, TEXTURE, disk.SizeOf(path), true)];
  }

  /** A reload whose file has gone leaves the asset unloaded and
      unregistered: the unload is not undone. */
  lemma ReloadOfMissingFileDropsAsset(s: Stores, name: string, disk: Disk, callback: bool)
    requires name in s.registry && s.registry[name].assetType != SCENE
    requires name in s.Names(s.registry[name].assetType)
    requires !disk.Exists(s.registry[name].filepath)
    ensures var r := Reload(s, true, name, disk, callback);
            !r.0 && name !in r.1.registry && name !in r.1.Names(s.registry[name].assetType)
  {
  }

  /** preloadAssets: registered names that are not flagged loaded are
      loaded by their registered type and path. */
  function Preload(s: Stores, initialized: bool, names: seq<string>, disk: Disk, callback: bool): Stores
    decreases |names|
  {
    if names == [] then s
    else
      var before := Preload(s, initialized, names[..|names| - 1], disk, callback);
      var name := names[|names| - 1];
      if name in before.registry && !before.registry[name].isLoaded then
        Load(before, initialized, before.registry[name].assetType, name, before.registry[name].filepath, disk, callback).1
      else before
  }

  /** Because every registry entry is flagged loaded, preloadAssets never
      loads anything, not even an auto-discovered asset. */
  lemma {:induction false} PreloadIsNoOp(s: Stores, initialized: bool, names: seq<string>, disk: Disk, callback: bool)
    requires s.Valid()
    ensures Preload(s, initialized, names, disk, callback) == s
    decreases |names|
  {
    if names != [] {
      PreloadIsNoOp(s, initialized, names[..|names| - 1], disk, callback);
    }
  }

  /** autoDiscoverAssets registers each path under its stem, later paths
      overwriting earlier ones with the same stem; nothing is loaded. */
  function RegisterAll(reg: map<string, AssetInfo>, paths: seq<string>, t: AssetType, nameOf: string -> string, disk: Disk): (r: map<string, AssetInfo>)
    decreases |paths|
  {
    if paths == [] then reg
    else Register(RegisterAll(reg, paths[..|paths| - 1], t, nameOf, disk), nameOf(paths[|paths| - 1]), paths[|paths| - 1], t, disk)
  }

  lemma {:induction false} RegisterAllKeepsValid(s: Stores, paths: seq<string>, t: AssetType, nameOf: string -> string, disk: Disk)
    requires s.Valid()
    ensures s.(registry := RegisterAll(s.registry, paths, t, nameOf, disk)).Valid()
    decreases |paths|
  {
    if paths != [] {
      RegisterAllKeepsValid(s, paths[..|paths| - 1], t, nameOf, disk);
    }
  }

  // ---------------------------------------------------------------------
  // Scanning

  /** The regular files among the entries whose path passes keep, in order. */
  function ValidFiles(entries: seq<DirEntry>, keep: string -> bool): (r: seq<string>)
    decreases |entries|
  {
    if entries == [] then []
    else
      var e := entries[|entries| - 1];
      ValidFiles(entries[..|entries| - 1], keep) + (if !e.isDirectory && keep(e.path) then [e.path] else [])
  }

  /** The iteration of scanForAssets: the regular files whose path passes
      keep, in iteration order. */
  method FilterFiles(entries: seq<DirEntry>, keep: string -> bool) returns (results: seq<string>)
    ensures results == ValidFiles(entries, keep)
  {
    results := [];
    var i := 0;
    while i < |entries|
      invariant 0 <= i <= |entries|
      invariant results == ValidFiles(entries[..i], keep)
    {
      assert entries[..i + 1][..i] == entries[..i];
      if !entries[i].isDirectory && keep(entries[i].path) {
        results := results + [entries[i].path];
      }
      i := i + 1;
    }
    assert entries[..i] == entries;
  }

  /** A scan keeps exactly the regular files whose path passes the filter. */
  lemma {:induction false} ValidFilesExact(entries: seq<DirEntry>, keep: string -> bool, p: string)
    ensures p in ValidFiles(entries, keep)
            <==> keep(p) && exists i :: 0 <= i < |entries| && !entries[i].isDirectory && entries[i].path == p
    decreases |entries|
  {
    if entries != [] {
      var n := |entries| - 1;
      var prefix := entries[..n];
      ValidFilesExact(prefix, keep, p);
      assert ValidFiles(entries, keep) == ValidFiles(prefix, keep)
             + (if !entries[n].isDirectory && keep(entries[n].path) then [entries[n].path] else []);
      if exists i :: 0 <= i < |entries| && !entries[i].isDirectory && entries[i].path == p {
        var i :| 0 <= i < |entries| && !entries[i].isDirectory && entries[i].path == p;
        if i < n {
          assert prefix[i] == entries[i];
        }
      }
    }
  }

  /** The filter scanForAssets applies to the paths it iterates over. */
  function ValidFor(t: AssetType): string -> bool
  {
    p => IsValidAssetFile(p, t)
  }

  /** scanForAssets: nothing for a directory that does not exist; otherwise
      the valid regular files the (recursive) directory iterator yields. */
  function Scanned(disk: Disk, directory: string, t: AssetType, recursive: bool): (r: seq<string>)
    ensures !disk.Exists(directory) ==> r == []
  {
    if !disk.Exists(directory) || directory !in disk.dirs then []
    else
      var listing := disk.dirs[directory];
      ValidFiles(if recursive then listing.descendants else listing.children, ValidFor(t))
  }

  // ---------------------------------------------------------------------
  // Reporting

  /** Names whose registered file no longer exists. */
  function MissingNames(reg: map<string, AssetInfo>, disk: Disk): set<string>
  {
    set n | n in reg && !disk.Exists(reg[n].filepath)
  }

  function LoadedSizeOf(info: AssetInfo): nat
  {
    if info.isLoaded then info.size else 0
  }

  /** The sum of the sizes of the loaded entries among keys. */
  ghost function LoadedSize(reg: map<string, AssetInfo>, keys: set<string>): nat
    requires keys <= reg.Keys
    decreases keys
  {
    if keys == {} then 0
    else
      var k :| k in keys;
      LoadedSizeOf(reg[k]) + LoadedSize(reg, keys - {k})
  }

  /** The sum does not depend on which key is taken first. */
  lemma {:induction false} LoadedSizeRemove(reg: map<string, AssetInfo>, keys: set<string>, k: string)
    requires keys <= reg.Keys && k in keys
    ensures LoadedSize(reg, keys) == LoadedSizeOf(reg[k]) + LoadedSize(reg, keys - {k})
    decreases keys
  {
    var j :| j in keys && LoadedSize(reg, keys) == LoadedSizeOf(reg[j]) + LoadedSize(reg, keys - {j});
    if j != k {
      LoadedSizeRemove(reg, keys - {j}, k);
      LoadedSizeRemove(reg, keys - {k}, j);
      assert keys - {j} - {k} == keys - {k} - {j};
    }
  }

  lemma {:induction false} LoadedSizeSameEntries(reg: map<string, AssetInfo>, reg2: map<string, AssetInfo>, keys: set<string>)
    requires keys <= reg.Keys && keys <= reg2.Keys
    requires forall k :: k in keys ==> reg[k] == reg2[k]
    ensures LoadedSize(reg, keys) == LoadedSize(reg2, keys)
    decreases keys
  {
    if keys != {} {
      var k :| k in keys;
      LoadedSizeRemove(reg, keys, k);
      LoadedSizeRemove(reg2, keys, k);
      LoadedSizeSameEntries(reg, reg2, keys - {k});
    }
  }

  /** The memory total grows by exactly the file size when a fresh asset is
      loaded, and loses the old entry's size when a name is re-registered. */
  lemma LoadedSizeAfterRegister(reg: map<string, AssetInfo>, name: string, path: string, t: AssetType, disk: Disk)
    ensures var r := Register(reg, name, path, t, disk);
            var rest := reg.Keys - {name};
            LoadedSize(r, r.Keys) == LoadedSize(reg, rest) + disk.SizeOf(path)
  {
    var r := Register(reg, name, path, t, disk);
    LoadedSizeRemove(r, r.Keys, name);
    assert r.Keys - {name} == reg.Keys - {name};
    LoadedSizeSameEntries(r, reg, reg.Keys - {name});
  }

  // ---------------------------------------------------------------------
  // The manager

  class AssetManager {
    /** RESOURCES_PATH, fixed at build time. */
    const resourcesPath: string
    var initialized: bool
    var hotReloadEnabled: bool
    var textures: map<string, Media>
    var audioAssets: map<string, Media>
    var sceneData: map<string, string>
    var fonts: map<string, Media>
    var registry: map<string, AssetInfo>
    /** Whether a load callback is installed, and what it has been told. */
    var hasLoadCallback: bool
    var loadEvents: seq<LoadEvent>

    ghost function Model(): Stores
      reads this
    {
      Stores(textures, audioAssets, sceneData, fonts, registry, loadEvents)
    }

    ghost predicate Valid()
      reads this
    {
      Model().Valid()
    }

    constructor (resources: string)
      ensures resourcesPath == resources
      ensures !initialized && !hotReloadEnabled && !hasLoadCallback
      ensures Model() == Empty && Valid()
    {
      resourcesPath := resources;
      initialized, hotReloadEnabled, hasLoadCallback := false, false, false;
      textures, audioAssets, sceneData, fonts, registry, loadEvents := map[], map[], map[], map[], map[], [];
    }

    /** initialize: idempotent; the first call turns the manager on and
        registers (without loading) what the three resource folders hold. */
    method Initialize(disk: Disk) returns (ok: bool)
      requires Valid()
      modifies this
      ensures ok && initialized && Valid()
      ensures hasLoadCallback == old(hasLoadCallback) && hotReloadEnabled == old(hotReloadEnabled)
      ensures old(initialized) ==> Model() == old(Model())
      ensures !old(initialized) ==>
        var texturePaths := Scanned(disk, resourcesPath + "textures/", TEXTURE, true);
        var audioPaths := Scanned(disk, resourcesPath + "audio/", AUDIO, true);
        var scenePaths := Scanned(disk, resourcesPath + "scenes/", SCENE, true);
        Model() == old(Model()).(registry := RegisterAll(RegisterAll(RegisterAll(old(registry), texturePaths, TEXTURE, Stem, disk),
                                                                     audioPaths, AUDIO, Stem, disk), scenePaths, SCENE, Stem, disk))
    {
      if initialized {
        return true;
      }
      initialized := true;
      AutoDiscoverAssets(disk);
      ok := true;
    }

    method AutoDiscoverAssets(disk: Disk)
      requires Valid()
      modifies this`registry
      ensures Valid()
      ensures registry == RegisterAll(RegisterAll(RegisterAll(old(registry),
                            Scanned(disk, resourcesPath + "textures/", TEXTURE, true), TEXTURE, Stem, disk),
                            Scanned(disk, resourcesPath + "audio/", AUDIO, true), AUDIO, Stem, disk),
                            Scanned(disk, resourcesPath + "scenes/", SCENE, true), SCENE, Stem, disk)
    {
      var texturePaths := ScanForAssets(resourcesPath + "textures/", TEXTURE, true, disk);
      var audioPaths := ScanForAssets(resourcesPath + "audio/", AUDIO, true, disk);
      var scenePaths := ScanForAssets(resourcesPath + "scenes/", SCENE, true, disk);
      RegisterPaths(texturePaths, TEXTURE, Stem, disk);
      RegisterPaths(audioPaths, AUDIO, Stem, disk);
      RegisterPaths(scenePaths, SCENE, Stem, disk);
    }

    /** One registration loop of autoDiscoverAssets; each path is
        registered under nameOf(path) (the manager passes Stem). */
    method RegisterPaths(paths: seq<string>, t: AssetType, nameOf: string -> string, disk: Disk)
      requires Valid()
      modifies this`registry
      ensures Valid()
      ensures registry == RegisterAll(old(registry), paths, t, nameOf, disk)
    {
      var i := 0;
      while i < |paths|
        invariant 0 <= i <= |paths|
        invariant registry == RegisterAll(old(registry), paths[..i], t, nameOf, disk)
        invariant Valid()
      {
        assert paths[..i + 1][..i] == paths[..i];
        RegisterAsset(nameOf(paths[i]), paths[i], t, disk);
        i := i + 1;
      }
      assert paths[..i] == paths;
    }

    /** scanForAssets, directory iteration included. */
    method ScanForAssets(directory: string, t: AssetType, recursive: bool, disk: Disk) returns (results: seq<string>)
      ensures results == Scanned(disk, directory, t, recursive)
    {
      results := [];
      if !disk.Exists(directory) || directory !in disk.dirs {
        return;
      }
      var entries := if recursive then disk.dirs[directory].descendants else disk.dirs[directory].children;
      results := FilterFiles(entries, ValidFor(t));
    }

    /** shutdown: a no-op unless initialised; then every store is emptied. */
    method Shutdown()
      requires Valid()
      modifies this
      ensures Valid() && !initialized
      ensures old(initialized) ==> Model() == Empty.(events := old(loadEvents))
      ensures !old(initialized) ==> Model() == old(Model())
      ensures hasLoadCallback == old(hasLoadCallback) && hotReloadEnabled == old(hotReloadEnabled)
    {
      if !initialized {
        return;
      }
      UnloadAllAssets();
      initialized := false;
    }

    method UnloadAllAssets()
      modifies this`textures, this`audioAssets, this`sceneData, this`fonts, this`registry
      ensures Model() == Empty.(events := loadEvents) && Valid()
    {
      textures, audioAssets, sceneData, fonts := map[], map[], map[], map[];
      registry := map[];
    }

    method SetAssetLoadCallback(installed: bool)
      modifies this`hasLoadCallback
      ensures hasLoadCallback == installed
    {
      hasLoadCallback := installed;
    }

    method RegisterAsset(name: string, path: string, t: AssetType, disk: Disk)
      modifies this`registry
      ensures old(Valid()) ==> Valid()
      ensures registry == Register(old(registry), name, path, t, disk)
    {
      registry := registry[name := AssetInfo(name, path, t, disk.SizeOf(path), true)];
    }

    method UnregisterAsset(name: string)
      modifies this`registry
      ensures old(Valid()) ==> Valid()
      ensures registry == old(registry) - {name}
    {
      registry := registry - {name};
    }

    /** The initialised guard shared by the four load entry points, and the
        category's internal load. */
    method LoadAsset(t: AssetType, name: string, path: string, disk: Disk) returns (ok: bool)
      modifies this`textures, this`audioAssets, this`sceneData, this`fonts, this`registry, this`loadEvents
      ensures old(Valid()) ==> Valid()
      ensures (ok, Model()) == Load(old(Model()), initialized, t, name, path, disk, hasLoadCallback)
    {
      if !initialized {
        return false;
      }
      match t
      case TEXTURE => ok := LoadTextureInternal(name, path, disk);
      case AUDIO => ok := LoadAudioInternal(name, path, disk);
      case SCENE => ok := LoadSceneInternal(name, path, disk);
      case FONT => ok := LoadFontInternal(name, path, disk);
    }

    method LoadTexture(name: string, path: string, disk: Disk) returns (ok: bool)
      requires Valid()
      modifies this`textures, this`audioAssets, this`sceneData, this`fonts, this`registry, this`loadEvents
      ensures Valid()
      ensures (ok, Model()) == Load(old(Model()), initialized, TEXTURE, name, path, disk, hasLoadCallback)
    {
      ok := LoadAsset(TEXTURE, name, path, disk);
    }

    method LoadAudio(name: string, path: string, disk: Disk) returns (ok: bool)
      requires Valid()
      modifies this`textures, this`audioAssets, this`sceneData, this`fonts, this`registry, this`loadEvents
      ensures Valid()
      ensures (ok, Model()) == Load(old(Model()), initialized, AUDIO, name, path, disk, hasLoadCallback)
    {
      ok := LoadAsset(AUDIO, name, path, disk);
    }

    method LoadScene(name: string, path: string, disk: Disk) returns (ok: bool)
      requires Valid()
      modifies this`textures, this`audioAssets, this`sceneData, this`fonts, this`registry, this`loadEvents
      ensures Valid()
      ensures (ok, Model()) == Load(old(Model()), initialized, SCENE, name, path, disk, hasLoadCallback)
    {
      ok := LoadAsset(SCENE, name, path, disk);
    }

    method LoadFont(name: string, path: string, disk: Disk) returns (ok: bool)
      requires Valid()
      modifies this`textures, this`audioAssets, this`sceneData, this`fonts, this`registry, this`loadEvents
      ensures Valid()
      ensures (ok, Model()) == Load(old(Model()), initialized, FONT, name, path, disk, hasLoadCallback)
    {
      ok := LoadAsset(FONT, name, path, disk);
    }

    method NotifyLoaded(name: string, t: AssetType)
      modifies this`loadEvents
      ensures loadEvents == Notify(old(Model()), hasLoadCallback, name, t)
    {
      if hasLoadCallback {
        loadEvents := loadEvents + [LoadEvent(name, t, true)];
      }
    }

    method LoadTextureInternal(name: string, path: string, disk: Disk) returns (ok: bool)
      modifies this`textures, this`registry, this`loadEvents
      ensures old(Valid()) ==> Valid()
      ensures (ok, Model()) == LoadInternal(old(Model()), TEXTURE, name, path, disk, hasLoadCallback)
    {
      if name in textures {
        return true;
      }
      if !disk.Exists(path) {
        return false;
      }
      if !Decodes(disk, path) {
        return false;
      }
      textures := textures[name := Media(path, disk.files[path])];
      RegisterAsset(name, path, TEXTURE, disk);
      NotifyLoaded(name, TEXTURE);
      ok := true;
    }

    method LoadAudioInternal(name: string, path: string, disk: Disk) returns (ok: bool)
      modifies this`audioAssets, this`registry, this`loadEvents
      ensures old(Valid()) ==> Valid()
      ensures (ok, Model()) == LoadInternal(old(Model()), AUDIO, name, path, disk, hasLoadCallback)
    {
      if name in audioAssets {
        return true;
      }
      if !disk.Exists(path) {
        return false;
      }
      if !Decodes(disk, path) {
        return false;
      }
      audioAssets := audioAssets[name := Media(path, disk.files[path])];
      RegisterAsset(name, path, AUDIO, disk);
      NotifyLoaded(name, AUDIO);
      ok := true;
    }

    method LoadSceneInternal(name: string, path: string, disk: Disk) returns (ok: bool)
      modifies this`sceneData, this`registry, this`loadEvents
      ensures old(Valid()) ==> Valid()
      ensures (ok, Model()) == LoadInternal(old(Model()), SCENE, name, path, disk, hasLoadCallback)
    {
      if name in sceneData {
        return true;
      }
      var content := disk.ReadText(path);
      if content == "" {
        return false;
      }
      sceneData := sceneData[name := content];
      RegisterAsset(name, path, SCENE, disk);
      NotifyLoaded(name, SCENE);
      ok := true;
    }

    method LoadFontInternal(name: string, path: string, disk: Disk) returns (ok: bool)
      modifies this`fonts, this`registry, this`loadEvents
      ensures old(Valid()) ==> Valid()
      ensures (ok, Model()) == LoadInternal(old(Model()), FONT, name, path, disk, hasLoadCallback)
    {
      if name in fonts {
        return true;
      }
      if !disk.Exists(path) {
        return false;
      }
      if !Decodes(disk, path) {
        return false;
      }
      fonts := fonts[name := Media(path, disk.files[path])];
      RegisterAsset(name, path, FONT, disk);
      NotifyLoaded(name, FONT);
      ok := true;
    }

    /** unloadTexture / unloadAudio / unloadScene / unloadFont. */
    method UnloadAsset(t: AssetType, name: string)
      modifies this`textures, this`audioAssets, this`sceneData, this`fonts, this`registry
      ensures old(Valid()) ==> Valid()
      ensures Model() == Unload(old(Model()), t, name)
    {
      match t
      case TEXTURE =>
        if name in textures {
          textures := textures - {name};
          UnregisterAsset(name);
        }
      case AUDIO =>
        if name in audioAssets {
          audioAssets := audioAssets - {name};
          UnregisterAsset(name);
        }
      case SCENE =>
        if name in sceneData {
          sceneData := sceneData - {name};
          UnregisterAsset(name);
        }
      case FONT =>
        if name in fonts {
          fonts := fonts - {name};
          UnregisterAsset(name);
        }
    }

    method LoadAssetsFromDirectory(directory: string, t: AssetType, recursive: bool, disk: Disk) returns (allSuccess: bool)
      requires Valid()
      modifies this`textures, this`audioAssets, this`sceneData, this`fonts, this`registry, this`loadEvents
      ensures Valid()
      ensures !initialized ==> !allSuccess && Model() == old(Model())
      ensures initialized ==>
        (allSuccess, Model()) == LoadBatch(old(Model()), t, Scanned(disk, directory, t, recursive), Stem, disk, hasLoadCallback)
    {
      if !initialized {
        return false;
      }
      var assets := ScanForAssets(directory, t, recursive, disk);
      allSuccess := LoadPaths(assets, t, Stem, disk);
    }

    /** The loop of loadAssetsFromDirectory: every path is loaded under its
        stem, and a failure does not stop the loop. */
    method LoadPaths(assets: seq<string>, t: AssetType, nameOf: string -> string, disk: Disk) returns (allSuccess: bool)
      requires Valid() && initialized
      modifies this`textures, this`audioAssets, this`sceneData, this`fonts, this`registry, this`loadEvents
      ensures Valid()
      ensures (allSuccess, Model()) == LoadBatch(old(Model()), t, assets, nameOf, disk, hasLoadCallback)
    {
      allSuccess := true;
      var i := 0;
      while i < |assets|
        invariant 0 <= i <= |assets|
        invariant Valid()
        invariant (allSuccess, Model()) == LoadBatch(old(Model()), t, assets[..i], nameOf, disk, hasLoadCallback)
      {
        ghost var before := Model();
        var ok := LoadAsset(t, nameOf(assets[i]), assets[i], disk);
        BatchStep(old(Model()), t, assets, nameOf, disk, hasLoadCallback, i, allSuccess, before, ok, Model());
        allSuccess := allSuccess && ok;
        i := i + 1;
      }
      assert assets[..i] == assets;
    }

    /** unloadAssetsByType: the names registered with type t are collected
        first and then unloaded from t's store; a registered name absent
        from that store (a discovered asset) stays registered. */
    method UnloadAssetsByType(t: AssetType)
      requires Valid()
      modifies this`textures, this`audioAssets, this`sceneData, this`fonts, this`registry
      ensures Valid()
      ensures var collected := set n | n in old(registry) && old(registry)[n].assetType == t;
              Model().Names(t) == old(Model()).Names(t) - collected
              && registry == old(registry) - (collected * old(Model()).Names(t))
      ensures forall u :: u != t ==> Model().Names(u) == old(Model()).Names(u)
      ensures var collected := set n | n in old(registry) && old(registry)[n].assetType == t;
              && textures == (if t == TEXTURE then old(textures) - collected else old(textures))
              && audioAssets == (if t == AUDIO then old(audioAssets) - collected else old(audioAssets))
              && sceneData == (if t == SCENE then old(sceneData) - collected else old(sceneData))
              && fonts == (if t == FONT then old(fonts) - collected else old(fonts))
      ensures loadEvents == old(loadEvents)
    {
      var toRemove := set n | n in registry && registry[n].assetType == t;
      ghost var collected := toRemove;
      ghost var done: set<string> := {};
      while toRemove != {}
        invariant toRemove + done == collected && toRemove !! done
        invariant Valid()
        invariant Model().Names(t) == old(Model()).Names(t) - done
        invariant registry == old(registry) - (done * old(Model()).Names(t))
        invariant forall u :: u != t ==> Model().Names(u) == old(Model()).Names(u)
        invariant Kept(t, old(Model()), done)
        invariant loadEvents == old(loadEvents)
        decreases toRemove
      {
        var name :| name in toRemove;
        UnloadCollected(t, name, old(Model()), done);
        toRemove := toRemove - {name};
        done := done + {name};
      }
    }

    /** The four stores are those of base, with the names in gone removed
        from t's store only. */
    ghost predicate Kept(t: AssetType, base: Stores, gone: set<string>)
      reads this`textures, this`audioAssets, this`sceneData, this`fonts
    {
      && textures == (if t == TEXTURE then base.textures - gone else base.textures)
      && audioAssets == (if t == AUDIO then base.audio - gone else base.audio)
      && sceneData == (if t == SCENE then base.scenes - gone else base.scenes)
      && fonts == (if t == FONT then base.fonts - gone else base.fonts)
    }

    /** One name of unloadAssetsByType's batch: with the names done so far
        gone from t's store, and registered only where t's store did not
        hold them, the next name joins them. */
    method UnloadCollected(t: AssetType, name: string, ghost base: Stores, ghost done: set<string>)
      requires Valid()
      requires Model().Names(t) == base.Names(t) - done
      requires registry == base.registry - (done * base.Names(t))
      requires forall u :: u != t ==> Model().Names(u) == base.Names(u)
      requires Kept(t, base, done)
      modifies this`textures, this`audioAssets, this`sceneData, this`fonts, this`registry
      ensures Valid() && loadEvents == old(loadEvents)
      ensures Model().Names(t) == base.Names(t) - (done + {name})
      ensures registry == base.registry - ((done + {name}) * base.Names(t))
      ensures forall u :: u != t ==> Model().Names(u) == base.Names(u)
      ensures Kept(t, base, done + {name})
    {
      UnloadAsset(t, name);
    }

    /** reloadAsset. */
    method ReloadAsset(name: string, disk: Disk) returns (ok: bool)
      requires Valid()
      modifies this`textures, this`audioAssets, this`sceneData, this`fonts, this`registry, this`loadEvents
      ensures Valid()
      ensures (ok, Model()) == Reload(old(Model()), initialized, name, disk, hasLoadCallback)
    {
      if name !in registry {
        return false;
      }
      var path := registry[name].filepath;
      var t := registry[name].assetType;
      UnloadAsset(t, name);
      ok := LoadAsset(t, name, path, disk);
    }

    /** preloadAssets. */
    method PreloadAssets(names: seq<string>, disk: Disk)
      modifies this`textures, this`audioAssets, this`sceneData, this`fonts, this`registry, this`loadEvents
      ensures Model() == Preload(old(Model()), initialized, names, disk, hasLoadCallback)
      ensures old(Valid()) ==> Model() == old(Model())
    {
      var i := 0;
      while i < |names|
        invariant 0 <= i <= |names|
        invariant Model() == Preload(old(Model()), initialized, names[..i], disk, hasLoadCallback)
      {
        assert names[..i + 1][..i] == names[..i];
        var name := names[i];
        if name in registry && !registry[name].isLoaded {
          var path := registry[name].filepath;
          var t := registry[name].assetType;
          var _ := LoadAsset(t, name, path, disk);
        }
        i := i + 1;
      }
      assert names[..i] == names;
      if old(Valid()) {
        PreloadIsNoOp(old(Model()), initialized, names, disk, hasLoadCallback);
      }
    }

    /** getTotalMemoryUsage. */
    method GetTotalMemoryUsage() returns (total: nat)
      ensures total == LoadedSize(registry, registry.Keys)
    {
      total := 0;
      var remaining := registry.Keys;
      while remaining != {}
        invariant remaining <= registry.Keys
        invariant total + LoadedSize(registry, remaining) == LoadedSize(registry, registry.Keys)
        decreases remaining
      {
        var name :| name in remaining;
        LoadedSizeRemove(registry, remaining, name);
        if registry[name].isLoaded {
          total := total + registry[name].size;
        }
        remaining := remaining - {name};
      }
    }

    /** validateAsset. */
    method ValidateAsset(name: string, disk: Disk) returns (valid: bool)
      ensures valid <==> name in registry && name !in MissingNames(registry, disk)
    {
      if name !in registry {
        return false;
      }
      valid := disk.Exists(registry[name].filepath);
    }

    /** validateAllAssets. */
    method ValidateAllAssets(disk: Disk) returns (allValid: bool)
      ensures allValid <==> MissingNames(registry, disk) == {}
    {
      allValid := true;
      var remaining := registry.Keys;
      while remaining != {}
        invariant remaining <= registry.Keys
        invariant allValid <==> forall n :: n in registry && n !in remaining ==> disk.Exists(registry[n].filepath)
        decreases remaining
      {
        var name :| name in remaining;
        if !disk.Exists(registry[name].filepath) {
          allValid := false;
        }
        remaining := remaining - {name};
      }
      if !allValid {
        var n :| n in registry && !disk.Exists(registry[n].filepath);
        assert n in MissingNames(registry, disk);
      }
    }

    /** getMissingAssets: each missing name once. */
    method GetMissingAssets(disk: Disk) returns (missing: seq<string>)
      ensures forall n :: n in missing <==> n in MissingNames(registry, disk)
      ensures forall i, j :: 0 <= i < j < |missing| ==> missing[i] != missing[j]
    {
      missing := [];
      var remaining := registry.Keys;
      while remaining != {}
        invariant remaining <= registry.Keys
        invariant forall n :: n in missing <==> n in MissingNames(registry, disk) && n !in remaining
        invariant forall i, j :: 0 <= i < j < |missing| ==> missing[i] != missing[j]
        decreases remaining
      {
        var name :| name in remaining;
        if !disk.Exists(registry[name].filepath) {
          missing := missing + [name];
        }
        remaining := remaining - {name};
      }
    }
  }
}
