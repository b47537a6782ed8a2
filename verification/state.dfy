/**
 * The plugin's single global state object (`src/core/state.ts`): the
 * platform, the QQ data directory, the configuration, the two account maps
 * filled in when the plugin learns about logged-in accounts, the registry of
 * pending schedule timers, and the logger.
 */
module State {
  import opened Wrappers
  import opened FileTree
  import opened Types
  import opened OrderedMaps

  /**
   * A registered `setTimeout` handle: when it is due, whether it is still to
   * fire, and the task it was armed for.
   */
  datatype Timer = Timer(fireAt: int, pending: bool, task: ScheduleTask)

  datatype LogLevel = Info | Warn | Error

  /** `Partial<CleanerPluginConfig>`: a field is `None` when absent. */
  datatype ConfigPatch = ConfigPatch(defaultOptions: Option<CleanOptions>, scheduleTasks: Option<seq<ScheduleTask>>)

  /** `{ ...config, ...patch }`: a shallow merge, present fields replace whole. */
  function ApplyConfigPatch(c: Config, p: ConfigPatch): (r: Config)
    ensures p.defaultOptions.Some? ==> r.defaultOptions == p.defaultOptions.value
    ensures p.defaultOptions.None? ==> r.defaultOptions == c.defaultOptions
    ensures p.scheduleTasks.Some? ==> r.scheduleTasks == p.scheduleTasks.value
    ensures p.scheduleTasks.None? ==> r.scheduleTasks == c.scheduleTasks
  {
    Config(p.defaultOptions.GetOr(c.defaultOptions), p.scheduleTasks.GetOr(c.scheduleTasks))
  }

  /** The configuration a fresh state holds: a copy of the defaults and no task. */
  const InitialConfig: Config := Config(DefaultCleanOptions, [])

  class PluginState {
    /** `os.platform() === 'win32'`, fixed for the life of the process. */
    const isWindows: bool
    var dataPath: Path
    var hasLogger: bool
    /** The levels of the messages handed to the logger, in order. */
    var logged: seq<LogLevel>
    var config: Config
    var uinToUid: OrderedMap<string, string>
    var uinToHashDir: OrderedMap<string, Path>
    var scheduleTimers: map<string, Timer>
    var currentUid: string
    /** The configuration last written by `saveConfig`, if any. */
    var saved: Option<Config>

    ghost predicate Valid()
      reads this
    {
      uinToUid.Valid() && uinToHashDir.Valid()
    }

    /** The fields a fresh `PluginState` starts with. */
    constructor (isWindows: bool)
      ensures Valid()
      ensures this.isWindows == isWindows
      ensures dataPath == [] && !hasLogger && logged == []
      ensures config == InitialConfig
      ensures uinToUid.keys == [] && uinToHashDir.keys == [] && scheduleTimers == map[]
      ensures currentUid == "" && saved == None
    {
      this.isWindows := isWindows;
      dataPath := [];
      hasLogger := false;
      logged := [];
      config := InitialConfig;
      uinToUid := Empty();
      uinToHashDir := Empty();
      scheduleTimers := map[];
      currentUid := "";
      saved := None;
    }

    /** `log`: handed to the logger when there is one, dropped otherwise. */
    method Log(level: LogLevel)
      modifies this
      ensures logged == if old(hasLogger) then old(logged) + [level] else old(logged)
      ensures hasLogger == old(hasLogger) && dataPath == old(dataPath) && config == old(config)
      ensures uinToUid == old(uinToUid) && uinToHashDir == old(uinToHashDir)
      ensures scheduleTimers == old(scheduleTimers) && currentUid == old(currentUid) && saved == old(saved)
    {
      if hasLogger {
        logged := logged + [level];
      }
    }

    /** `updateConfig`: a shallow merge; nothing else changes. */
    method UpdateConfig(patch: ConfigPatch)
      modifies this
      ensures config == ApplyConfigPatch(old(config), patch)
      ensures hasLogger == old(hasLogger) && logged == old(logged) && dataPath == old(dataPath)
      ensures uinToUid == old(uinToUid) && uinToHashDir == old(uinToHashDir)
      ensures scheduleTimers == old(scheduleTimers) && currentUid == old(currentUid) && saved == old(saved)
    {
      config := ApplyConfigPatch(config, patch);
    }

    /** `updateDefaultOptions`: the fields present replace, the task list is untouched. */
    method UpdateDefaultOptions(options: PartialOptions)
      modifies this
      ensures config == Config(Merge(old(config.defaultOptions), options), old(config.scheduleTasks))
      ensures forall c :: config.defaultOptions.Enabled(c) == options.Flag(c).GetOr(old(config.defaultOptions).Enabled(c))
      ensures config.defaultOptions.retainDays == options.retainDays.GetOr(old(config.defaultOptions.retainDays))
      ensures hasLogger == old(hasLogger) && logged == old(logged) && dataPath == old(dataPath)
      ensures uinToUid == old(uinToUid) && uinToHashDir == old(uinToHashDir)
      ensures scheduleTimers == old(scheduleTimers) && currentUid == old(currentUid) && saved == old(saved)
    {
      MergeTakesPresentFields(config.defaultOptions, options);
      config := config.(defaultOptions := Merge(config.defaultOptions, options));
    }

    /** `saveConfig`: the document written is the current configuration. */
    method SaveConfig()
      modifies this
      ensures saved == Some(config)
      ensures config == old(config) && hasLogger == old(hasLogger) && logged == old(logged) && dataPath == old(dataPath)
      ensures uinToUid == old(uinToUid) && uinToHashDir == old(uinToHashDir)
      ensures scheduleTimers == old(scheduleTimers) && currentUid == old(currentUid)
    {
      saved := Some(config);
    }

    /**
     * `loadConfig`: `stored` is the parsed document, `None` when the file is
     * missing or does not parse; a parsed document is merged in.
     */
    method LoadConfig(stored: Option<ConfigPatch>)
      modifies this
      ensures stored.None? ==> config == old(config)
      ensures stored.Some? ==> config == ApplyConfigPatch(old(config), stored.value)
      ensures hasLogger == old(hasLogger) && logged == old(logged) && dataPath == old(dataPath)
      ensures uinToUid == old(uinToUid) && uinToHashDir == old(uinToHashDir)
      ensures scheduleTimers == old(scheduleTimers) && currentUid == old(currentUid) && saved == old(saved)
    {
      if stored.Some? {
        UpdateConfig(stored.value);
      }
    }
  }
}
