// The audio manager: a name-keyed table of decoded sounds behind an
// initialisation flag. The audio device is an oracle (whether it came up
// is a parameter), and a decoded sound is identified by the file it was
// decoded from; playback, volume and pitch act on the device only and do
// not change the table.

module Audio {
  import opened Common

  /** A decoded raudio Sound, identified by the file it came from. */
  datatype Sound = Sound(filepath: string)

  /** The state of an AudioManager as a value. */
  datatype AudioState = AudioState(initialized: bool, sounds: map<string, Sound>)

  /** Whether raudio's LoadSound yields samples for this path: the file
      opens for reading and decodes to a non-empty sample buffer. */
  predicate Decodable(disk: Disk, filepath: string)
  {
    filepath in disk.files && disk.files[filepath].decodes
  }

  /** initialize: already initialised is success without change; otherwise
      the outcome is the device's. */
  function Init(st: AudioState, deviceReady: bool): (r: (bool, AudioState))
    ensures r.0 <==> st.initialized || deviceReady
    ensures r.1.initialized == r.0
    ensures r.1.sounds == st.sounds
    ensures st.initialized ==> r == (true, st)
  {
    if st.initialized then (true, st)
    else if !deviceReady then (false, st)
    else (true, st.(initialized := true))
  }

  /** loadSound. */
  function Load(st: AudioState, name: string, filepath: string, disk: Disk): (r: (bool, AudioState))
  {
    if !st.initialized then (false, st)
    else if name in st.sounds then (true, st)
    else if filepath !in disk.files then (false, st)
    else if !disk.files[filepath].decodes then (false, st)
    else (true, st.(sounds := st.sounds[name := Sound(filepath)]))
  }

  /** What loadSound promises: it fails without any change while
      uninitialised and for a missing or undecodable file; an existing name
      is success that keeps the old sound; otherwise the name is bound to
      the new sound and nothing else changes. */
  lemma LoadSpec(st: AudioState, name: string, filepath: string, disk: Disk)
    ensures var r := Load(st, name, filepath, disk);
      && (r.0 <==> st.initialized && (name in st.sounds || Decodable(disk, filepath)))
      && (!r.0 ==> r.1 == st)
      && (name in st.sounds ==> r.1 == st)
      && r.1.initialized == st.initialized
      && (r.0 ==> name in r.1.sounds)
      && (r.0 && name !in st.sounds ==> r.1.sounds[name] == Sound(filepath))
      && (forall n :: n != name ==> (n in r.1.sounds <==> n in st.sounds))
      && (forall n :: n in st.sounds ==> n in r.1.sounds && r.1.sounds[n] == st.sounds[n])
  {
  }

  /** Loading the same name twice: the second call always succeeds and
      changes nothing, whatever file it names. */
  lemma LoadTwice(st: AudioState, name: string, first: string, second: string, disk: Disk)
    requires Load(st, name, first, disk).0
    ensures var st1 := Load(st, name, first, disk).1;
            Load(st1, name, second, disk) == (true, st1)
  {
  }

  /** unloadSound: only that name goes; an absent name is a no-op. */
  function Unload(st: AudioState, name: string): (r: AudioState)
    ensures name !in r.sounds
    ensures r.sounds == st.sounds - {name}
    ensures name !in st.sounds ==> r == st
    ensures r.initialized == st.initialized
  {
    if name in st.sounds then st.(sounds := st.sounds - {name}) else st
  }

  /** A loaded sound that is unloaded is gone again: load then unload
      leaves the table of a fresh name as it was. */
  lemma LoadThenUnload(st: AudioState, name: string, filepath: string, disk: Disk)
    requires name !in st.sounds
    ensures Unload(Load(st, name, filepath, disk).1, name) == st
  {
    var r := Load(st, name, filepath, disk).1;
    if r != st {
      assert r.sounds - {name} == st.sounds;
    }
  }

  /** shutdown: a no-op when uninitialised; otherwise every sound is
      unloaded and the manager is uninitialised. */
  function Close(st: AudioState): (r: AudioState)
    ensures !st.initialized ==> r == st
    ensures st.initialized ==> !r.initialized && r.sounds == map[]
  {
    if !st.initialized then st else AudioState(false, map[])
  }

  /** After shutdown the manager is uninitialised, so a following load
      fails until it is initialised again. */
  lemma NoLoadAfterClose(st: AudioState, name: string, filepath: string, disk: Disk)
    requires st.initialized
    ensures !Load(Close(st), name, filepath, disk).0
  {
  }

  class AudioManager {
    var initialized: bool
    var sounds: map<string, Sound>

    ghost function Model(): AudioState
      reads this
    {
      AudioState(initialized, sounds)
    }

    constructor ()
      ensures Model() == AudioState(false, map[])
    {
      initialized := false;
      sounds := map[];
    }

    method Initialize(deviceReady: bool) returns (ok: bool)
      modifies this
      ensures (ok, Model()) == Init(old(Model()), deviceReady)
    {
      if initialized {
        return true;
      }
      if !deviceReady {
        return false;
      }
      initialized := true;
      ok := true;
    }

    function IsInitialized(): bool
      reads this
    {
      initialized
    }

    method LoadSound(name: string, filepath: string, disk: Disk) returns (ok: bool)
      modifies this
      ensures (ok, Model()) == Load(old(Model()), name, filepath, disk)
      ensures !old(initialized) || name in old(sounds) ==> unchanged(this)
    {
      if !initialized {
        return false;
      }
      if name in sounds {
        return true;
      }
      if filepath !in disk.files {
        return false;
      }
      if !disk.files[filepath].decodes {
        return false;
      }
      sounds := sounds[name := Sound(filepath)];
      ok := true;
    }

    method UnloadSound(name: string)
      modifies this
      ensures Model() == Unload(old(Model()), name)
    {
      if name in sounds {
        sounds := sounds - {name};
      }
    }

    method UnloadAllSounds()
      modifies this
      ensures sounds == map[] && initialized == old(initialized)
    {
      sounds := map[];
    }

    method Shutdown()
      modifies this
      ensures Model() == Close(old(Model()))
    {
      if !initialized {
        return;
      }
      UnloadAllSounds();
      initialized := false;
    }
  }
}
