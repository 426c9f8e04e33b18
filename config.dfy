/** The plugin's settings object: six settings with defaults, a dirty flag,
    write-on-change, and a lazily created process-wide instance kept in a
    store object (the source's static `_instance`). The settings file is an
    object whose reads and writes succeed or fail as its state says. */
module Config {
  import opened Types

  /** The six settings, as the JSON file holds them. */
  datatype Settings = Settings(
    AutoStartLobby: bool,
    IsPublic: bool,
    MaxLobbySize: i32,
    NoFailMode: bool,
    DebugMode: bool,
    AvatarsInLobby: bool)

  /** The values a new `Config` starts with. */
  const Defaults: Settings := Settings(false, true, 5, true, false, true)

  /** `./UserData/<plugin>.json`. `stored` is what reading and parsing the
      file yields (`None` when it is missing or unreadable), `writable` says
      whether a write succeeds, `writes` counts the writes that succeeded. */
  class ConfigFile {
    var stored: Option<Settings>
    var writable: bool
    var writes: nat

    constructor (stored: Option<Settings>, writable: bool)
      ensures this.stored == stored && this.writable == writable && writes == 0
    {
      this.stored := stored;
      this.writable := writable;
      writes := 0;
    }

    /** What one attempt to write `s` leaves behind: the file holds `s` and
        one more write when `ok`, and is untouched otherwise. */
    twostate predicate Persisted(s: Settings, ok: bool)
      reads this
    {
      && writable == old(writable)
      && (ok ==> stored == Some(s) && writes == old(writes) + 1)
      && (!ok ==> stored == old(stored) && writes == old(writes))
    }

    /** One `StreamWriter` write of the serialised settings. */
    method Write(s: Settings) returns (ok: bool)
      modifies this
      ensures ok == old(writable)
      ensures Persisted(s, ok)
    {
      ok := writable;
      if ok {
        stored := Some(s);
        writes := writes + 1;
      }
    }
  }

  class Config {
    const file: ConfigFile
    var autoStartLobby: bool
    var isPublic: bool
    var maxLobbySize: i32
    var noFailMode: bool
    var debugMode: bool
    var avatarsInLobby: bool
    var isDirty: bool

    /** The six settings as they would be written. */
    function Current(): (s: Settings)
      reads this
    {
      Settings(autoStartLobby, isPublic, maxLobbySize, noFailMode, debugMode, avatarsInLobby)
    }

    /** `Config()`: the defaults, not yet saved. */
    constructor (file: ConfigFile)
      ensures this.file == file
      ensures Current() == Defaults && isDirty
    {
      this.file := file;
      autoStartLobby := false;
      isPublic := true;
      maxLobbySize := 5;
      noFailMode := true;
      debugMode := false;
      avatarsInLobby := true;
      isDirty := true;
    }

    /** `JsonUtility.FromJson<Config>`: the six settings come from the file;
        the dirty flag is not serialised and starts false. */
    constructor FromJson(file: ConfigFile, s: Settings)
      ensures this.file == file
      ensures Current() == s && !isDirty
    {
      this.file := file;
      autoStartLobby := s.AutoStartLobby;
      isPublic := s.IsPublic;
      maxLobbySize := s.MaxLobbySize;
      noFailMode := s.NoFailMode;
      debugMode := s.DebugMode;
      avatarsInLobby := s.AvatarsInLobby;
      isDirty := false;
    }

    /** A clean config writes nothing and answers false; a dirty one writes
        and is clean afterwards exactly when the write succeeds. */
    method Save() returns (saved: bool)
      modifies this`isDirty, file
      ensures !old(isDirty) ==> !saved && !isDirty && unchanged(file)
      ensures old(isDirty) ==> saved == old(file.writable) && isDirty == !saved
      ensures old(isDirty) ==> file.Persisted(Current(), saved)
    {
      if !isDirty {
        return false;
      }
      saved := file.Write(Current());
      if saved {
        MarkClean();
      }
    }

    /** Mark dirty and save at once: clean again exactly when the write
        succeeds. */
    method MarkDirty()
      modifies this`isDirty, file
      ensures isDirty == !old(file.writable)
      ensures file.Persisted(Current(), old(file.writable))
    {
      isDirty := true;
      var _ := Save();
    }

    method MarkClean()
      modifies this`isDirty
      ensures !isDirty
    {
      isDirty := false;
    }

    method SetAutoStartLobby(value: bool)
      modifies this`autoStartLobby, this`isDirty, file
      ensures Current() == old(Current()).(AutoStartLobby := value)
      ensures isDirty == !old(file.writable)
      ensures file.Persisted(Current(), old(file.writable))
    {
      autoStartLobby := value;
      MarkDirty();
    }

    method SetIsPublic(value: bool)
      modifies this`isPublic, this`isDirty, file
      ensures Current() == old(Current()).(IsPublic := value)
      ensures isDirty == !old(file.writable)
      ensures file.Persisted(Current(), old(file.writable))
    {
      isPublic := value;
      MarkDirty();
    }

    method SetMaxLobbySize(value: i32)
      modifies this`maxLobbySize, this`isDirty, file
      ensures Current() == old(Current()).(MaxLobbySize := value)
      ensures isDirty == !old(file.writable)
      ensures file.Persisted(Current(), old(file.writable))
    {
      maxLobbySize := value;
      MarkDirty();
    }

    method SetNoFailMode(value: bool)
      modifies this`noFailMode, this`isDirty, file
      ensures Current() == old(Current()).(NoFailMode := value)
      ensures isDirty == !old(file.writable)
      ensures file.Persisted(Current(), old(file.writable))
    {
      noFailMode := value;
      MarkDirty();
    }

    method SetDebugMode(value: bool)
      modifies this`debugMode, this`isDirty, file
      ensures Current() == old(Current()).(DebugMode := value)
      ensures isDirty == !old(file.writable)
      ensures file.Persisted(Current(), old(file.writable))
    {
      debugMode := value;
      MarkDirty();
    }

    method SetAvatarsInLobby(value: bool)
      modifies this`avatarsInLobby, this`isDirty, file
      ensures Current() == old(Current()).(AvatarsInLobby := value)
      ensures isDirty == !old(file.writable)
      ensures file.Persisted(Current(), old(file.writable))
    {
      avatarsInLobby := value;
      MarkDirty();
    }
  }

  /** The static side of `Config`: the lazily created instance and the
      operations that load, create and reload it. */
  class ConfigStore {
    const file: ConfigFile
    var instance: Config?

    /** Every instance writes to the one settings file. */
    ghost predicate Valid()
      reads this, instance
    {
      instance != null ==> instance.file == file
    }

    constructor (file: ConfigFile)
      ensures this.file == file && instance == null && Valid()
    {
      this.file := file;
      instance := null;
    }

    /** `Config.Instance`: creates the defaults only when there is no
        instance; otherwise hands out the same object again. */
    method Instance() returns (c: Config)
      requires Valid()
      modifies this`instance
      ensures Valid() && instance == c
      ensures old(instance) != null ==> c == old(instance)
      ensures old(instance) == null ==> fresh(c) && c.Current() == Defaults && c.isDirty
    {
      if instance == null {
        instance := new Config(file);
      }
      c := instance;
    }

    /** Read the file into a new instance, then mark it dirty and save twice
        (`MarkDirty` saves, then `Save`); refused when an instance exists,
        false when the file cannot be read. */
    method Load() returns (loaded: bool)
      requires Valid()
      modifies this`instance, file
      ensures Valid()
      ensures old(instance) != null ==> !loaded && instance == old(instance) && unchanged(file)
      ensures old(instance) == null && old(file.stored).None? ==>
        !loaded && instance == null && unchanged(file)
      ensures old(instance) == null && old(file.stored).Some? ==>
        && loaded && instance != null && fresh(instance)
        && instance.Current() == old(file.stored).value
        && instance.isDirty == !old(file.writable)
        && file.Persisted(instance.Current(), old(file.writable))
    {
      if instance != null {
        return false;
      }
      if file.stored.None? {
        return false;
      }
      var c := new Config.FromJson(file, file.stored.value);
      instance := c;
      c.MarkDirty();
      var _ := c.Save();
      loaded := true;
    }

    /** A new instance with the defaults, saved at once; refused when an
        instance exists. A failed write does not make it fail. */
    method Create() returns (created: bool)
      requires Valid()
      modifies this`instance, file
      ensures Valid()
      ensures old(instance) != null ==> !created && instance == old(instance) && unchanged(file)
      ensures old(instance) == null ==>
        && created && instance != null && fresh(instance)
        && instance.Current() == Defaults
        && instance.isDirty == !old(file.writable)
        && file.Persisted(Defaults, old(file.writable))
    {
      if instance != null {
        return false;
      }
      var c := Instance();
      var _ := c.Save();
      created := true;
    }

    /** Load, and create the defaults only when loading fails. */
    method Init()
      requires Valid()
      modifies this`instance, file
      ensures Valid()
      ensures old(instance) != null ==> instance == old(instance) && unchanged(file)
      ensures old(instance) == null && old(file.stored).Some? ==>
        && instance != null && fresh(instance)
        && instance.Current() == old(file.stored).value
        && instance.isDirty == !old(file.writable)
        && file.Persisted(instance.Current(), old(file.writable))
      ensures old(instance) == null && old(file.stored).None? ==>
        && instance != null && fresh(instance)
        && instance.Current() == Defaults
        && instance.isDirty == !old(file.writable)
        && file.Persisted(Defaults, old(file.writable))
    {
      var loaded := Load();
      if !loaded {
        var _ := Create();
      }
    }

    /** Save the current instance if it is dirty, drop it, and load the
        file again; when the file cannot be read there is no instance
        afterwards. `onDisk` is what the file holds after the first save:
        the dropped instance's settings when that save succeeds. The load
        then saves the new instance once more. */
    method Reload()
      requires Valid() && instance != null
      modifies this`instance, file, instance`isDirty
      ensures Valid()
      ensures old(instance).isDirty == (old(instance.isDirty) && !old(file.writable))
      ensures var onDisk := if old(instance.isDirty) && old(file.writable)
                            then Some(old(instance.Current())) else old(file.stored);
        && (onDisk.None? ==> instance == null)
        && (onDisk.Some? ==>
              && instance != null && fresh(instance)
              && instance.Current() == onDisk.value
              && instance.isDirty == !old(file.writable))
        && file.writable == old(file.writable)
        && file.stored == onDisk
        && file.writes == old(file.writes)
           + (if old(file.writable)
              then (if old(instance.isDirty) then 1 else 0) + (if onDisk.Some? then 1 else 0)
              else 0)
    {
      if instance.isDirty {
        var _ := instance.Save();
      }
      instance := null;
      var _ := Load();
    }
  }
}
