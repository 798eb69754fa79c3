// The file watcher of the hot-reload pipeline: a path-keyed watch table
// holding, per file, its type, its callback and the modification time seen
// last. One call of CheckForUpdates is one atomic polling pass; the thread
// that repeats it, the mutex and the sleeps are not modelled. Modification
// times come from the Disk value; a Clocks value stands for the two clock
// readings that convert them to system time.

module FileWatching {
  import opened Common
  import Assets

  datatype FileType = TEXTURE | SCENE | AUDIO | SHADER | UNKNOWN

  /** The std::function stored with a watch: empty, or a handler the owner
      of the watch identifies by name. */
  datatype Callback = NoCallback | Handler(name: string)

  datatype WatchedFile = WatchedFile(path: string, fileType: FileType, lastModified: int, callback: Callback)

  /** One invocation of a reload callback during a polling pass. */
  datatype FileChange = FileChange(path: string, handler: string)

  const TextureExtensions: seq<string> := [".png", ".jpg", ".jpeg", ".bmp", ".tga"]
  const SceneExtensions: seq<string> := [".scene"]
  const AudioExtensions: seq<string> := [".mp3", ".wav", ".ogg"]
  const ShaderExtensions: seq<string> := [".glsl", ".vert", ".frag"]

  /** The classification of an already lower-cased extension. */
  function ClassifyExtension(ext: string): FileType
  {
    if ext in TextureExtensions then TEXTURE
    else if ext in SceneExtensions then SCENE
    else if ext in AudioExtensions then AUDIO
    else if ext in ShaderExtensions then SHADER
    else UNKNOWN
  }

  /** detectFileType: the lower-cased extension looked up in the table. */
  function DetectFileType(path: string): FileType
  {
    ClassifyExtension(Lower(PathExtension(path)))
  }

  /** Each extension of the table is classified by the row it is in, and
      an extension in no row is UNKNOWN. */
  lemma ClassifyExtensionTable(ext: string)
    ensures ClassifyExtension(ext) == TEXTURE <==> ext in TextureExtensions
    ensures ClassifyExtension(ext) == SCENE <==> ext in SceneExtensions
    ensures ClassifyExtension(ext) == AUDIO <==> ext in AudioExtensions
    ensures ClassifyExtension(ext) == SHADER <==> ext in ShaderExtensions
    ensures ClassifyExtension(ext) == UNKNOWN
            <==> ext !in TextureExtensions + SceneExtensions + AudioExtensions + ShaderExtensions
  {
  }

  /** The watcher and the asset manager agree on textures and scenes; every
      file the watcher calls audio is valid audio for the asset manager,
      but not conversely: ".flac" is audio there and UNKNOWN here. */
  lemma WatcherAgreesWithAssetTables(path: string)
    ensures DetectFileType(path) == TEXTURE <==> Assets.IsValidAssetFile(path, Assets.TEXTURE)
    ensures DetectFileType(path) == SCENE <==> Assets.IsValidAssetFile(path, Assets.SCENE)
    ensures DetectFileType(path) == AUDIO ==> Assets.IsValidAssetFile(path, Assets.AUDIO)
    ensures Lower(PathExtension(path)) == ".flac" ==>
              DetectFileType(path) == UNKNOWN && Assets.IsValidAssetFile(path, Assets.AUDIO)
  {
    var e := Lower(PathExtension(path));
    ClassifyExtensionTable(e);
  }

  /** The two clock readings getFileModificationTime combines: the system
      clock's now and the file clock's now. A pass is modelled with one
      pair; the engine reads both clocks again at every call. */
  datatype Clocks = Clocks(system: int, file: int)

  /** getFileModificationTime: the write time of the file or directory,
      moved from the file clock to the system clock by adding the
      difference of the two readings; the system clock's now when the time
      cannot be read. */
  function ModTime(disk: Disk, path: string, clocks: Clocks): int
  {
    if path in disk.files then disk.files[path].modified - clocks.file + clocks.system
    else if path in disk.dirs then disk.dirs[path].modified - clocks.file + clocks.system
    else clocks.system
  }

  // ---------------------------------------------------------------------
  // The watch table as a value

  /** watchFile: nothing for a missing path; otherwise the entry is stored
      or replaced, with the detected type when UNKNOWN was given and the
      current modification time as its baseline. */
  function Watch(w: map<string, WatchedFile>, path: string, fileType: FileType, callback: Callback, disk: Disk, clocks: Clocks): map<string, WatchedFile>
  {
    if !disk.Exists(path) then w
    else
      var t := if fileType == UNKNOWN then DetectFileType(path) else fileType;
      w[path := WatchedFile(path, t, ModTime(disk, path, clocks), callback)]
  }

  /** Whether a polling pass sees the watched file at path as changed: it
      still exists and its time is later than the baseline. */
  predicate Changed(w: map<string, WatchedFile>, path: string, disk: Disk, clocks: Clocks)
    requires path in w
  {
    disk.Exists(path) && ModTime(disk, path, clocks) > w[path].lastModified
  }

  /** The table after one pass of checkForUpdates: every changed entry
      takes the new time as its baseline; no entry is removed. */
  function Poll(w: map<string, WatchedFile>, disk: Disk, clocks: Clocks): (r: map<string, WatchedFile>)
    ensures r.Keys == w.Keys
    ensures forall p :: p in w ==> r[p].lastModified >= w[p].lastModified
  {
    map p | p in w :: PollEntry(w, p, disk, clocks)
  }

  /** One entry after a pass. */
  function PollEntry(w: map<string, WatchedFile>, path: string, disk: Disk, clocks: Clocks): WatchedFile
    requires path in w
  {
    if Changed(w, path, disk, clocks) then w[path].(lastModified := ModTime(disk, path, clocks)) else w[path]
  }

  /** Whether a pass invokes the callback of the entry at path: it changed
      and has a callback. */
  predicate FiresAt(w: map<string, WatchedFile>, path: string, disk: Disk, clocks: Clocks)
  {
    path in w && Changed(w, path, disk, clocks) && w[path].callback.Handler?
  }

  /** The paths whose callback one pass invokes. */
  function Fires(w: map<string, WatchedFile>, disk: Disk, clocks: Clocks): set<string>
  {
    set p | p in w && FiresAt(w, p, disk, clocks)
  }

  /** The paths a sequence of callback invocations is about. */
  function PathsOf(changes: seq<FileChange>): set<string>
  {
    set c | c in changes :: c.path
  }

  lemma PathsOfSnoc(changes: seq<FileChange>, c: FileChange)
    ensures PathsOf(changes + [c]) == PathsOf(changes) + {c.path}
  {
    assert forall d :: d in changes + [c] <==> d in changes || d == c;
  }

  /** A file watched just now is not reported by a pass that sees the same
      disk and clock. */
  lemma WatchedFileDoesNotFireImmediately(w: map<string, WatchedFile>, path: string, fileType: FileType, callback: Callback, disk: Disk, clocks: Clocks)
    ensures path !in Fires(Watch(w, path, fileType, callback, disk, clocks), disk, clocks)
  {
  }

  /** Watching and polling an unchanged file with a callback: the pass
      fires exactly when the difference between the system and file
      clocks has grown since the watch, so the clock conversion alone can
      report a change. */
  lemma SkewAloneFires(w: map<string, WatchedFile>, path: string, fileType: FileType, callback: Callback,
                       disk: Disk, watched: Clocks, polled: Clocks)
    requires disk.Exists(path) && callback.Handler?
    ensures path in Fires(Watch(w, path, fileType, callback, disk, watched), disk, polled)
            <==> polled.system - polled.file > watched.system - watched.file
  {
  }

  /** A second pass with no timestamp change fires nothing and changes
      nothing. */
  lemma SecondPassFiresNothing(w: map<string, WatchedFile>, disk: Disk, clocks: Clocks)
    ensures Fires(Poll(w, disk, clocks), disk, clocks) == {}
    ensures Poll(Poll(w, disk, clocks), disk, clocks) == Poll(w, disk, clocks)
  {
    var w1 := Poll(w, disk, clocks);
    forall p | p in w1
      ensures !Changed(w1, p, disk, clocks)
    {
    }
  }

  /** A file missing at poll time is skipped and stays watched with its
      old baseline. */
  lemma MissingFileStaysWatched(w: map<string, WatchedFile>, path: string, disk: Disk, clocks: Clocks)
    requires path in w && !disk.Exists(path)
    ensures path in Poll(w, disk, clocks) && Poll(w, disk, clocks)[path] == w[path]
    ensures path !in Fires(w, disk, clocks)
  {
  }

  class FileWatcher {
    var watchedFiles: map<string, WatchedFile>
    var isRunning: bool
    /** Whether the application pointer is set. */
    var hasApplication: bool

    /** Every entry is stored under its own path. */
    ghost predicate Valid()
      reads this
    {
      forall p :: p in watchedFiles ==> watchedFiles[p].path == p
    }

    constructor ()
      ensures watchedFiles == map[] && !isRunning && !hasApplication
      ensures Valid()
    {
      watchedFiles := map[];
      isRunning := false;
      hasApplication := false;
    }

    /** initialize: refused without an application; otherwise the watcher
        keeps the application and starts running. */
    method Initialize(application: bool) returns (ok: bool)
      modifies this`hasApplication, this`isRunning
      ensures ok == application
      ensures ok ==> hasApplication && isRunning
      ensures !ok ==> hasApplication == old(hasApplication) && isRunning == old(isRunning)
    {
      if !application {
        return false;
      }
      hasApplication := true;
      isRunning := true;
      ok := true;
    }

    /** shutdown: only a running watcher stops, forgets every watch and
        drops the application. */
    method Shutdown()
      modifies this`isRunning, this`watchedFiles, this`hasApplication
      ensures old(isRunning) ==> !isRunning && watchedFiles == map[] && !hasApplication
      ensures !old(isRunning) ==> isRunning == old(isRunning) && watchedFiles == old(watchedFiles)
                                  && hasApplication == old(hasApplication)
    {
      if isRunning {
        isRunning := false;
        ClearAllWatches();
        hasApplication := false;
      }
    }

    /** watchFile. */
    method WatchFile(path: string, fileType: FileType, callback: Callback, disk: Disk, clocks: Clocks)
      modifies this`watchedFiles
      ensures watchedFiles == Watch(old(watchedFiles), path, fileType, callback, disk, clocks)
      ensures old(Valid()) ==> Valid()
    {
      if !disk.Exists(path) {
        return;
      }
      var t := fileType;
      if t == UNKNOWN {
        t := DetectFileType(path);
      }
      var modTime := ModTime(disk, path, clocks);
      watchedFiles := watchedFiles[path := WatchedFile(path, t, modTime, callback)];
    }

    /** unwatchFile: only that path goes; an absent path is a no-op. */
    method UnwatchFile(path: string)
      modifies this`watchedFiles
      ensures watchedFiles == old(watchedFiles) - {path}
      ensures path !in old(watchedFiles) ==> watchedFiles == old(watchedFiles)
      ensures old(Valid()) ==> Valid()
    {
      if path in watchedFiles {
        watchedFiles := watchedFiles - {path};
      }
    }

    method ClearAllWatches()
      modifies this`watchedFiles
      ensures watchedFiles == map[]
    {
      watchedFiles := map[];
    }

    /** checkForUpdates: one pass over the table. The callbacks of the
        changed files are invoked once each, in the table's iteration
        order, which the model leaves open. */
    method CheckForUpdates(disk: Disk, clocks: Clocks) returns (fired: seq<FileChange>)
      modifies this`watchedFiles
      ensures watchedFiles == Poll(old(watchedFiles), disk, clocks)
      ensures PathsOf(fired) == Fires(old(watchedFiles), disk, clocks)
      ensures forall c :: c in fired ==> c.path in old(watchedFiles) && old(watchedFiles)[c.path].callback == Handler(c.handler)
      ensures forall j, k :: 0 <= j < k < |fired| ==> fired[j].path != fired[k].path
      ensures old(Valid()) ==> Valid()
    {
      var table := watchedFiles;
      fired := [];
      var remaining := table.Keys;
      while remaining != {}
        invariant watchedFiles == old(watchedFiles)
        invariant remaining <= watchedFiles.Keys
        invariant table.Keys == watchedFiles.Keys
        invariant forall p :: p in watchedFiles ==> table[p] == if p in remaining then watchedFiles[p] else PollEntry(watchedFiles, p, disk, clocks)
        invariant PathsOf(fired) == Fires(watchedFiles, disk, clocks) - remaining
        invariant forall c :: c in fired ==> c.path in watchedFiles && watchedFiles[c.path].callback == Handler(c.handler)
        invariant forall j, k :: 0 <= j < k < |fired| ==> fired[j].path != fired[k].path
        decreases remaining
      {
        var path :| path in remaining;
        var entry := table[path];
        if disk.Exists(path) {
          var current := ModTime(disk, path, clocks);
          if current > entry.lastModified {
            if entry.callback.Handler? {
              PathsOfSnoc(fired, FileChange(path, entry.callback.name));
              fired := fired + [FileChange(path, entry.callback.name)];
            }
            table := table[path := entry.(lastModified := current)];
          }
        }
        remaining := remaining - {path};
      }
      assert table == Poll(watchedFiles, disk, clocks);
      watchedFiles := table;
    }

    /** setEnabled: starting a running watcher or stopping a stopped one
        changes nothing; the watch table is never touched. */
    method SetEnabled(enabled: bool)
      modifies this`isRunning
      ensures isRunning == enabled
    {
      if enabled && !isRunning {
        isRunning := true;
      } else if !enabled && isRunning {
        isRunning := false;
      }
    }

    method GetWatchedFileCount() returns (count: nat)
      ensures count == |watchedFiles|
    {
      count := |watchedFiles|;
    }

    /** getWatchedFiles: every watched path once. */
    method GetWatchedFiles() returns (files: seq<string>)
      ensures forall p :: p in files <==> p in watchedFiles
      ensures forall j, k :: 0 <= j < k < |files| ==> files[j] != files[k]
    {
      files := [];
      var remaining := watchedFiles.Keys;
      while remaining != {}
        invariant remaining <= watchedFiles.Keys
        invariant forall p :: p in files <==> p in watchedFiles && p !in remaining
        invariant forall j, k :: 0 <= j < k < |files| ==> files[j] != files[k]
        decreases remaining
      {
        var path :| path in remaining;
        files := files + [path];
        remaining := remaining - {path};
      }
    }
  }
}
