# NapCat cache cleaner, modelled in Dafny

This project models the core of the NapCat plugin that cleans QQ's local media
cache: photos, videos and their thumbnails, voice messages, received files, logs,
QQ's `nt_temp` directory and NapCat's own data and temp directories. It also proves
properties of that model.

The model covers these parts of the plugin:

- **Walkers.** `cleanDirectory` and `getDirStatsWithFilter` (`walkers.dfy`) walk a
  directory tree that is modelled as a value (`file_tree.dfy`) and sits in a `Disk`
  object that the cleaner changes in place. `cleanDirectory` unlinks the files older
  than the retention window and removes the subdirectories that this leaves empty.
  `getDirStatsWithFilter` counts what such a clean would remove.
- **Path resolution.** `getNtDataPath`, `getNtTempPath`, `getNapCatPath`,
  `getCleanablePaths` (`nt_paths.dfy`) and `getAllAccounts` (`accounts.dfy`) find an
  account's `nt_data` directory:
  - On Windows it is below the account's directory.
  - On Linux it is below an `nt_qq_<hash>` directory. The hash comes from the
    account's uid (`computeNtHash`, `utils.dfy`).
  - Resolution uses the plugin's uin→uid and uin→hash-directory maps. These are
    ordered maps (`ordered_maps.dfy`), because JavaScript `Map` iteration order
    decides the order of the account list.

  From `nt_data` it lists the cleanable directories of each category. For the
  media categories these are the month directories `YYYY-MM`.
- **Aggregation.** `scanCache` and `executeClean` (`cleaner.dfy`) sum the walkers over
  every category into the per-category breakdown and the totals of `CleanStats`.
  `executeClean` only cleans the enabled categories. Across all the directories of
  all the categories, a clean never removes a file inside the window, and a second
  clean at the same time over the same directories deletes nothing.
- **Scheduler.** `schedule-service.ts` (`schedule.dfy`) turns a task's clock time and
  frequency (daily, weekly, every N days) into the time of its next run. It also:
  - keeps a registry of one-shot timers, with Node's `setTimeout` delay rules;
  - runs a task over its accounts and records the outcome on the stored task;
  - creates, updates and deletes tasks, and runs a task on demand.
- **State.** The `PluginState` singleton (`state.dfy`) is a class whose methods
  update its config, its maps and its timer registry.
- **Types and defaults.** `types.dfy` holds the shared types and the default options.

Time is in milliseconds (`time.dfy`). Days are fixed 86 400 000 ms days that start
at multiples of a day, and weekday 0 is Sunday.

## Legacy `index.ts`

The older single-file plugin `index.ts` copies the walkers, path resolution,
aggregation and scheduler above almost line for line. Its module globals are the
fields of `PluginState`, and the same members model the copies.

Only its `getAllAccounts` behaves differently, so it is modelled on its own in
`legacy.dfy`. It has a defect, listed under Findings.

## Model

| member | source | states |
|---|---|---|
| DirectoryWalkers.CleanEntries | src/services/cleaner-service.ts:180-226 | Definition of the clean of one listing. Its meaning is proved by CleanRemovesExactlyAgedFiles, CleanLeavesNoEmptySubdirectory and CleanFixedPoint. |
| DirectoryWalkers.StatsEntries | src/services/cleaner-service.ts:231-264 | Definition of the statistics of one listing. Its meaning is proved by StatsCountsExactly. |
| DirectoryWalkers.CleanListing | src/services/cleaner-service.ts:180-226 | The loop over one directory listing: the entries it keeps and the counters it returns are exactly the recursive clean of that listing. |
| DirectoryWalkers.StatsListing | src/services/cleaner-service.ts:231-264 | The loop over one listing returns exactly the recursive statistics of that listing. |
| DirectoryWalkers.CleanKeepsYoungAndLocked | src/services/cleaner-service.ts:193-219 | After a clean, the files left in the tree, in walk order, are exactly the files inside the window plus the aged files whose unlink throws. |
| DirectoryWalkers.CleanCountsUnlinked | src/services/cleaner-service.ts:195-208 | The file count is the number of aged files that could be unlinked. |
| DirectoryWalkers.CleanSizesAged | src/services/cleaner-service.ts:195-209 | The byte count is the total size of all aged files, including those whose unlink threw, because the size is added before the unlink. |
| DirectoryWalkers.CleanRemovesExactlyAgedFiles | src/services/cleaner-service.ts:180-226 | The three facts above together. |
| DirectoryWalkers.StatsCountsExactly | src/services/cleaner-service.ts:231-264 | The statistics count exactly the files the count rule admits: aged files for a positive window, every file otherwise. They also count those files' total size. |
| DirectoryWalkers.CleanLeavesNoEmptySubdirectory | src/services/cleaner-service.ts:206-218 | No subdirectory left by a clean is empty. Emptied subdirectories are removed, and so are those that were already empty. |
| DirectoryWalkers.CleanFixedPoint | src/services/cleaner-service.ts:180-226 | A listing with no empty subdirectory and no aged file is left unchanged, and the clean reports zero unlinked files. |
| DirectoryWalkers.CleanDirectory | src/services/cleaner-service.ts:180-226 | Replaces the disk's tree with the cleaned tree and returns the clean's counters, with a window of `retainDays` days. |
| DirectoryWalkers.GetDirStatsWithFilter | src/services/cleaner-service.ts:231-264 | Returns the number and total size of the files below the path that the count rule admits. A missing path gives zero. |
| DirectoryWalkers.CleanAtEffect | src/services/cleaner-service.ts:180-226 | A missing or non-directory path changes nothing and reports zero. Otherwise the directory survives, holds only the kept files, has no empty subdirectory and reports the right counters. Paths outside it do not change. |
| DirectoryWalkers.SecondCleanDeletesNothing | src/services/cleaner-service.ts:180-226 | Cleaning again at the same time unlinks nothing, leaves the disk unchanged, and reports only the bytes of locked aged files. |
| DirectoryWalkers.ReportedBytesVersusFreed | src/services/cleaner-service.ts:196-205 | Reported bytes equal freed bytes plus the bytes of aged files that could not be unlinked. |
| DirectoryWalkers.EstimateMatchesClean | src/services/cleaner-service.ts:231-264 | For a positive window the estimate's byte count equals the clean's, and its file count is the clean's plus the locked aged files. For no window it counts every file. |
| DirectoryWalkers.CleanAt | src/services/cleaner-service.ts:180-226 | Definition of `cleanDirectory` on a disk. Its meaning is proved by CleanAtEffect and SecondCleanDeletesNothing. |
| DirectoryWalkers.StatsAt | src/services/cleaner-service.ts:231-264 | Definition of `getDirStatsWithFilter` on a disk. Its meaning is proved by GetDirStatsWithFilter and EstimateMatchesClean. |
| DirectoryWalkers.SettledBelow | src/services/cleaner-service.ts:180-226 | Every directory below a settled directory is settled. Settled means no empty subdirectory and only files inside the window or locked. |
| DirectoryWalkers.CleanSettles | src/services/cleaner-service.ts:180-226 | After cleaning a directory, that directory is settled. |
| DirectoryWalkers.CleanSettledIsNoop | src/services/cleaner-service.ts:180-226 | Cleaning a settled directory changes nothing and unlinks nothing. |
| DirectoryWalkers.CleanKeepsSettled | src/services/cleaner-service.ts:180-226 | Cleaning any directory keeps every settled path settled, whether it lies below, above or beside the cleaned one. |
| DirectoryWalkers.KeptFileInListing | src/services/cleaner-service.ts:193-219 | A file inside the window, or whose unlink throws, is found at the same path in what a clean of the listing keeps. |
| DirectoryWalkers.CleanKeepsFileAt | src/services/cleaner-service.ts:180-226 | Cleaning any directory leaves such a file at its path, unchanged. |
| Utils.ComputeNtHash | src/core/utils.ts:20-24 | Definition of the account hash. Its meaning is proved by HashDirNameMatchesScanPattern. |
| Utils.IsDateDirName | src/core/utils.ts:43 | Definition of the `NNNN-NN` month-name test. Its meaning is proved by DateDirsShape and DateDirsMembership. |
| Utils.IsUinDirName | src/services/cleaner-service.ts:370 | Definition of the 5-to-11-digit account-name test. Its meaning is proved by WindowsAccounts and WindowsAccountsMembership. |
| Utils.IsNtHashDirName | src/services/cleaner-service.ts:45 | Definition of the `nt_qq_<32 hex>` name test. Its meaning is proved by HashDirNameMatchesScanPattern and FindHashDir. |
| Utils.HashDirNameMatchesScanPattern | src/core/utils.ts:20-24 | For an md5 that yields 32 lowercase hex digits, `nt_qq_` plus the hash matches the pattern the Linux directory scan accepts. Equal `md5(uid)` give equal hashes. |
| Utils.DateDirs | src/core/utils.ts:42-44 | There are no more paths than entries. |
| Utils.DateDirsShape | src/core/utils.ts:42-44 | Every path listed is the base joined with one `NNNN-NN` name. |
| Utils.DateDirsListed | src/core/utils.ts:42-44 | Every directory entry with a `NNNN-NN` name is listed, joined onto the base. |
| Utils.DateDirsSource | src/core/utils.ts:42-44 | Every listed path comes from a directory entry with a `NNNN-NN` name, and the lemma returns that entry's index. |
| Utils.GetDateSubdirs | src/core/utils.ts:36-48 | A missing base or a non-directory gives nothing. Otherwise the result is the month-named entries of the base. |
| Utils.DateDirsConcat | src/core/utils.ts:42-44 | The filter and map distribute over concatenated listings. |
| Utils.DateDirsMembership | src/core/utils.ts:42-44 | A path is listed exactly when some entry is a directory with a `NNNN-NN` name and the path is the base joined with that name. |
| Utils.DateSubdirsAreDirectories | src/core/utils.ts:36-48 | Every listed path names an existing directory. |
| Types.AllCategoriesListsEachOnce | src/types.ts:60-71 | The ten categories are listed once each. |
| Types.Merge | src/core/state.ts:64-66 | Definition of spreading partial options over options. Its meaning is proved by MergeTakesPresentFields and MergeIdentityAndIdempotent. |
| Types.DefaultCleanOptions | src/types.ts:76-88 | Definition of the default options. Its meaning is proved by DefaultsEnableAllButNapCatData. |
| Types.MergeTakesPresentFields | src/core/state.ts:64-66 | Spreading partial options over options takes each flag and `retainDays` from the partial options when present, and from the old value otherwise. |
| Types.MergeIdentityAndIdempotent | src/core/state.ts:64-66 | Spreading nothing changes nothing, and spreading the same partial options twice is spreading them once. |
| Types.RetainDaysLeavesFlags | src/services/schedule-service.ts:137-139 | Overriding `retainDays` leaves every category flag as it was. |
| Types.DefaultsEnableAllButNapCatData | src/types.ts:76-88 | The defaults enable every category except NapCat data and keep 7 days. |
| Types.AddChangesOneEntry | src/types.ts:46-55 | Adding counts to one category changes only that category's counts. |
| Types.SumCategoriesOutside | src/types.ts:46-55 | Adding to a category outside a list leaves the list's sum unchanged. |
| Types.SumAfterAdd | src/types.ts:46-55 | Adding to a zero category and appending it to the list adds those counts to the sum. |
| Types.FillReports | src/services/cleaner-service.ts:291-302 | A breakdown filled over distinct categories reports each listed category's counts and zero for the others. |
| NtPaths.HashDir | src/services/cleaner-service.ts:28-33 | Definition of an account's Linux hash directory. Its meaning is proved by HashDirNameMatchesScanPattern and ResolvedPathExistsAndIsCached. |
| NtPaths.ResolveNtData | src/services/cleaner-service.ts:10-62 | Definition of the `nt_data` resolution. Its meaning is proved by ResolvedPathExistsAndIsCached and ScanIgnoresAccount. |
| NtPaths.ScanHashDirs | src/services/cleaner-service.ts:41-55 | Definition of the scan for the first `nt_qq_*` directory with an `nt_data` inside. Its meaning is proved by ResolvedPathExistsAndIsCached and ScanIgnoresAccount. |
| NtPaths.NapCatPath | src/services/cleaner-service.ts:84-86 | Definition of the NapCat directory. Its meaning is proved by PathsStayInside. |
| NtPaths.CategoryPaths | src/services/cleaner-service.ts:111-172 | Definition of the per-category directories. Its meaning is proved by OnePathPerMediaMonth, ThumbAndVoicePathsPerMonth, ThumbPathsOfMonths, VoicePathsOfMonths, NoDataDirNoPaths and PathsStayInside. |
| NtPaths.GetNtDataPath | src/services/cleaner-service.ts:10-62 | Returns the resolved `nt_data` path and stores the resolved hash-directory cache. No other field of the state changes. |
| NtPaths.FindHashDir | src/services/cleaner-service.ts:43-54 | The scan loop returns the index of the first entry that is an `nt_qq_<32 hex>` directory holding `nt_data`, or nothing when no entry qualifies. |
| NtPaths.ResolvedPathExistsAndIsCached | src/services/cleaner-service.ts:10-62 | A resolved path exists and ends in `nt_data`. Windows never touches the cache. On Linux only the account's own cache entry can change, and an account without an entry gets the directory where `nt_data` was found. |
| NtPaths.ScanIgnoresAccount | src/services/cleaner-service.ts:40-58 | On Linux, two accounts that neither their cache entry nor their uid resolves both get the first `nt_qq_*` directory that the scan finds. |
| NtPaths.NtTempPath | src/services/cleaner-service.ts:67-79 | There is a path only on Linux, for an account with a cached hash directory, when `<hashDir>/nt_temp` exists. |
| NtPaths.GetCleanablePaths | src/services/cleaner-service.ts:91-175 | Returns the category paths of the resolved `nt_data` and `nt_temp`, and updates the cache as `getNtDataPath` does. |
| NtPaths.OnePathPerMediaMonth | src/services/cleaner-service.ts:112-117 | For video and pictures there is one path per month directory, in order: its `Ori` when that exists, otherwise the month directory itself. |
| NtPaths.ThumbAndVoicePathsPerMonth | src/services/cleaner-service.ts:118-137 | Any month gives at most two thumbnail paths and one or two voice paths. In total there are at most two thumbnail paths per video month and between one and two voice paths per voice month. |
| NtPaths.ThumbPathsOfMonths | src/services/cleaner-service.ts:118-125 | A path is a thumbnail path if and only if it is the `Thumb` or `ThumbTemp` directory of a video month and exists. A month with neither gives nothing. |
| NtPaths.VoicePathsOfMonths | src/services/cleaner-service.ts:128-137 | A path is a voice path if and only if it is the existing `Ori` or `OriTemp` of a voice month, or a voice month that has neither. |
| NtPaths.NoDataDirNoPaths | src/services/cleaner-service.ts:107-109 | With no `nt_data`, every category is empty, including the NapCat ones. |
| NtPaths.PathsStayInside | src/services/cleaner-service.ts:111-172 | Every listed path is strictly inside `nt_data`, is the `nt_temp` path, or is strictly inside NapCat's directory. The existence-checked categories list only existing paths. |
| NtPaths.ThumbnailsInsideVideoPath | src/services/cleaner-service.ts:114-125 | When a video month has no `Ori`, the month directory itself is a video path, so the video clean also covers its `Thumb` subdirectory. |
| Accounts.AllAccounts | src/services/cleaner-service.ts:362-395 | Definition of the account listing on both platforms. Its meaning is proved by WindowsAccountsMembership and LinuxAccountsMembership. |
| Accounts.WindowsAccounts | src/services/cleaner-service.ts:368-371 | Every listed account is an entry name of 5 to 11 digits, and there are no more accounts than entries. |
| Accounts.WindowsAccountsMembership | src/services/cleaner-service.ts:368-371 | An account is listed exactly when some entry is a directory with a 5 to 11 digit name. |
| Accounts.LinuxAccounts | src/services/cleaner-service.ts:379-391 | The Linux account loop keeps the hash-directory cache a valid ordered map. |
| Accounts.LinuxAccountsMembership | src/services/cleaner-service.ts:379-391 | A known uin is listed exactly when it is cached or its hash directory exists. Every listed uin is cached. Existing cache entries are kept, and a new entry is the uin's hash directory. |
| Accounts.GetAllAccounts | src/services/cleaner-service.ts:362-395 | Returns the account list and stores the updated cache. No other field of the state changes. |
| Cleaner.SumStats | src/services/cleaner-service.ts:292-301 | Definition of the summed statistics of a category's directories. Its meaning is proved by ScanDirs and ScanReportsEveryCategory. |
| Cleaner.ScanOf | src/services/cleaner-service.ts:291-302 | Definition of the per-category scan. Its meaning is proved by ScanReportsEveryCategory. |
| Cleaner.CleanDirs | src/services/cleaner-service.ts:344-353 | Definition of cleaning a category's directories in order. Its meaning is proved by CleanDirsInPlace, CleanDirsLeavesOthers, CleanDirsKeepsFile and CleanDirsSettles. |
| Cleaner.CleanCategories | src/services/cleaner-service.ts:310-357 | Definition of the category loop of `executeClean`. Its meaning is proved by CleanPaths, CategoryUntouched, CleanTouchesOnlyEnabledDirs, CleanKeepsYoungFiles and SecondCleanIsNoop. |
| Cleaner.ScanDirs | src/services/cleaner-service.ts:292-301 | Sums the statistics walker over a category's directories. |
| Cleaner.ScanPaths | src/services/cleaner-service.ts:269-305 | Reports, for every category, the summed statistics of its paths, with the totals equal to the sum over the categories. |
| Cleaner.ScanReportsEveryCategory | src/services/cleaner-service.ts:291-302 | The scan's entry for each category is the sum of the statistics over exactly that category's paths. |
| Cleaner.CleanDirsInPlace | src/services/cleaner-service.ts:344-353 | Cleans a category's directories one after another on the disk and sums their counters. |
| Cleaner.CleanStep | src/services/cleaner-service.ts:342-354 | One category of the clean loop extends both the breakdown and the running totals consistently. |
| Cleaner.CleanPaths | src/services/cleaner-service.ts:310-357 | The disk and the breakdown are those of cleaning the enabled categories in order. The totals equal the sum of the breakdown. |
| Cleaner.ScanCache | src/services/cleaner-service.ts:269-305 | Resolves the account's paths, stores the cache, and reports for each category the statistics over its paths, with a window of `retainDays` days. |
| Cleaner.ExecuteClean | src/services/cleaner-service.ts:310-357 | Resolves the account's paths, stores the cache, and cleans the enabled categories. |
| Cleaner.CategoryUntouched | src/services/cleaner-service.ts:342-343 | A disabled category reports zero. |
| Cleaner.CleanDirsLeavesOthers | src/services/cleaner-service.ts:180-226 | Cleaning a list of directories changes nothing at a path unrelated to all of them. |
| Cleaner.CleanTouchesOnlyEnabledDirs | src/services/cleaner-service.ts:310-357 | A clean changes nothing at a path unrelated to every path of every enabled category. |
| Cleaner.AllDisabledCleansNothing | src/services/cleaner-service.ts:310-357 | With every category disabled, the disk is unchanged and every count is zero. |
| Cleaner.CleanStaysInsideAccount | src/services/cleaner-service.ts:91-175 | A clean changes nothing outside the account's `nt_data`, its `nt_temp` and NapCat's directory. |
| Cleaner.CleanDirsKeepsFile | src/services/cleaner-service.ts:344-353 | Cleaning a category's directories one after another leaves every file inside the window, or whose unlink throws, at its path. |
| Cleaner.CleanKeepsYoungFiles | src/services/cleaner-service.ts:310-357 | A clean never removes a file inside the retention window, nor an aged file whose unlink throws, whatever directories the categories list, nested or overlapping. Such a file is still at its path, unchanged. |
| Cleaner.CleanDirsSettles | src/services/cleaner-service.ts:344-353 | After cleaning a category's directories, each of them is settled, and every path that was settled still is. |
| Cleaner.CleanDirsSettledIsNoop | src/services/cleaner-service.ts:344-353 | Cleaning settled directories changes nothing and unlinks nothing. |
| Cleaner.CleanCategoriesSettles | src/services/cleaner-service.ts:310-357 | After a clean, every directory of every enabled category is settled, and every path that was settled still is. |
| Cleaner.CleanCategoriesSettledIsNoop | src/services/cleaner-service.ts:310-357 | A clean whose directories are all settled changes nothing and reports no unlinked file in the category. |
| Cleaner.SecondCleanIsNoop | src/services/cleaner-service.ts:310-357 | With the clock fixed, a second clean over the same directories deletes nothing. The disk stays as the first clean left it, and no category and no total reports an unlinked file. |
| State.ApplyConfigPatch | src/core/state.ts:59-61 | Each field present in the patch replaces the stored one. Each absent field keeps its value. |
| State.PluginState.constructor | src/core/state.ts:8-26 | An empty state: default options, no tasks, empty maps, no timers, no logger, no uid. |
| State.InitialConfig | src/core/state.ts:11-14 | Definition of the initial config: the default options and no tasks. Its meaning is proved by PluginState.constructor. |
| State.PluginState.Log | src/core/state.ts:49-56 | A message is recorded only when a logger is set. Nothing else changes. |
| State.PluginState.UpdateConfig | src/core/state.ts:59-61 | The config becomes the patched config. Nothing else changes. |
| State.PluginState.UpdateDefaultOptions | src/core/state.ts:64-66 | The default options take each given flag and the given `retainDays`. The tasks and the rest of the state do not change. |
| State.PluginState.SaveConfig | src/core/utils.ts:53-63 | The stored config becomes the current config. Nothing else changes. |
| State.PluginState.LoadConfig | src/core/utils.ts:68-77 | With nothing stored the config is unchanged. Otherwise the stored patch is applied as `updateConfig` applies it. |
| OrderedMaps.OrderedMap.Set | src/core/state.ts:16-19 | `Map.set`: the key maps to the value and other keys keep theirs. A new key goes last, and an existing key keeps its position. |
| Time.DayStart | src/services/schedule-service.ts:31 | The midnight at or before the time, at most a day earlier. |
| Time.Weekday | src/services/schedule-service.ts:43 | `getDay()` is between 0 and 6. |
| Time.WeekdayAddDays | src/services/schedule-service.ts:43-45 | Adding k days advances the weekday by k modulo 7. |
| Scheduler.FirstSlot | src/services/schedule-service.ts:30-36 | Definition of the first slot. Its meaning is proved by FirstSlotWithinADay. |
| Scheduler.IntervalSlot | src/services/schedule-service.ts:47-58 | Definition of the slot N days after the last run. Its meaning is proved by IntervalRunsNDaysAfterLastRun. |
| Scheduler.NextRun | src/services/schedule-service.ts:27-58 | Definition of the next run. Its meaning is proved by DailyRunsWithinADay, WeeklyRunsOnTargetDay, IntervalRunsNDaysAfterLastRun and NextRunAfterNow. |
| Scheduler.IntervalDays | src/services/schedule-service.ts:47 | The interval is never zero. |
| Scheduler.DaysToWeekday | src/services/schedule-service.ts:41-45 | Stepping `(target - weekday) mod 7` days lands on the target weekday. |
| Scheduler.StepToWeekday | src/services/schedule-service.ts:42-45 | The day-stepping loop stops after `(target - weekday) mod 7` days. |
| Scheduler.ComputeNextRun | src/services/schedule-service.ts:27-58 | The time computed for the next run is `NextRun` of the task. |
| Scheduler.FirstSlotWithinADay | src/services/schedule-service.ts:27-36 | The first slot is strictly after now, at most a day later, and at the task's clock time. |
| Scheduler.DailyRunsWithinADay | src/services/schedule-service.ts:27-39 | A daily task runs next strictly within the coming day, at its clock time. |
| Scheduler.WeeklyRunsOnTargetDay | src/services/schedule-service.ts:41-45 | A weekly task is armed exactly when its target is 0 to 6. It then runs on that weekday, at its clock time, strictly after now and within seven days. |
| Scheduler.IntervalRunsNDaysAfterLastRun | src/services/schedule-service.ts:46-58 | An interval task runs N days after its last run, at its clock time, when that is still to come. Otherwise it runs at the first slot. |
| Scheduler.DailyRearmsOneDayLater | src/services/schedule-service.ts:64-71 | A daily task that fires at its slot is armed for exactly one day later. |
| Scheduler.FindTask | src/services/schedule-service.ts:164 | The index of the first task with the id, or none when no task has it. |
| Scheduler.Armed | src/services/schedule-service.ts:20-74 | Definition of the registry after setup. Its meaning is proved by SetupReplacesOnlyItsTimer. |
| Scheduler.SetupReplacesOnlyItsTimer | src/services/schedule-service.ts:20-74 | Setup replaces only the task's own timer. An enabled task with a next run gets a pending timer that fires when `setTimeout` fires for that run. A disabled one gets none. |
| Scheduler.ClearScheduleTimer | src/services/schedule-service.ts:9-15 | Removes the id's timer and nothing else. |
| Scheduler.SetupScheduleTask | src/services/schedule-service.ts:20-74 | The registry becomes the armed registry. Config, caches and log do not change. |
| Scheduler.ArmAll | src/services/schedule-service.ts:117-121 | Definition of arming every task in order. Its meaning is proved by InitArmsEnabledTasks. |
| Scheduler.InitAllScheduleTasks | src/services/schedule-service.ts:117-121 | The registry is the result of arming every stored task in order. |
| Scheduler.InitArmsEnabledTasks | src/services/schedule-service.ts:117-121 | With distinct ids, each task has a pending timer for its next run exactly when it is enabled and has one. Other ids keep their timers. |
| Scheduler.TimerDelay | src/services/schedule-service.ts:60-71 | The delay `setTimeout` really waits is between 1 ms and 2^31 - 1 ms. A requested delay in that range is waited in full. |
| Scheduler.FireAt | src/services/schedule-service.ts:60-71 | Definition of when the timer set with `nextRun - now` fires. Its meaning is proved by TimerFiresAtNextRun, LongIntervalFiresAtOnce and LongIntervalRearmsAtOnce. |
| Scheduler.NextRunAfterNow | src/services/schedule-service.ts:27-58 | With a valid clock, the next run of every kind of task is strictly after now. |
| Scheduler.TimerFiresAtNextRun | src/services/schedule-service.ts:60-71 | The timer fires at the next run whenever the wait fits in a `setTimeout` delay. It always fits for daily and weekly tasks. |
| Scheduler.LongIntervalFiresAtOnce | src/services/schedule-service.ts:46-71 | An interval task of 26 days or more that has just run has its next run more than 2^31 - 1 ms away, so its timer fires 1 ms later. |
| Scheduler.LongIntervalRearmsAtOnce | src/services/schedule-service.ts:64-71 | After a run of such a task, the stored task has `lastRun` now and is armed again to fire 1 ms later. |
| Scheduler.SteppedWakeRunsAtNextRun | src/services/schedule-service.ts:60-71 | A timer that waits in steps of at most 2^31 - 1 ms has every step waited in full. It runs the task only at the next run, and an intermediate wake-up leaves that next run unchanged. |
| Scheduler.SteppedWake | src/services/schedule-service.ts:60-71 | Definition of the corrected timer, which waits in steps `setTimeout` honours. Its meaning is proved by SteppedWakeRunsAtNextRun. |
| Scheduler.WeeklyLoopNeverEnds | src/services/schedule-service.ts:41-45 | With a target outside 0 to 6, the weekday loop has not stopped after any number of steps. |
| Scheduler.StepToWeekdayWithin | src/services/schedule-service.ts:43-45 | Definition of the weekday loop as written, run for at most a given number of steps. Its meaning is proved by WeeklyLoopNeverEnds and WeeklyLoopStops. |
| Scheduler.WeeklyLoopStops | src/services/schedule-service.ts:41-45 | With a target in 0 to 6, the loop stops within six steps, on the day `NextRun` picks. |
| Scheduler.ClearAllScheduleTimers | src/services/schedule-service.ts:126-130 | The registry becomes empty. Nothing else changes. |
| Scheduler.CleanAccount | src/services/schedule-service.ts:93-96 | `executeClean` of one account keeps the cache a valid ordered map. |
| Scheduler.SweepAccounts | src/services/schedule-service.ts:91-101 | The account loop with its catch keeps the cache a valid ordered map. |
| Scheduler.TaskAccounts | src/services/schedule-service.ts:82-85 | The account listing keeps the cache a valid ordered map. |
| Scheduler.RecordRun | src/services/schedule-service.ts:104-109 | Definition of the write-back of a run. Its meaning is proved by RecordRunTouchesOnlyTheTask. |
| Scheduler.RecordRunTouchesOnlyTheTask | src/services/schedule-service.ts:104-109 | The write-back changes only `lastRun` and `lastResult` of the first stored task with the id. It changes nothing when the task is gone. |
| Scheduler.RunAccount | src/services/schedule-service.ts:92-100 | A throwing account changes nothing. Any other account is cleaned. |
| Scheduler.SweepFromZero | src/services/schedule-service.ts:87-101 | Totals accumulate: starting from other totals shifts the result by them. |
| Scheduler.CleanEachAccount | src/services/schedule-service.ts:91-101 | The loop's disk, cache and totals are those of the account sweep. |
| Scheduler.CleanAccountsUntilThrow | src/services/schedule-service.ts:208-212 | The loop cleans the accounts before the first throwing one, then stops and names that account. |
| Scheduler.RunScheduleTask | src/services/schedule-service.ts:79-112 | Cleans the task's accounts, or every account when its list is empty, and skips those that throw. It records the totals on the stored task and saves only when the task is still stored. |
| Scheduler.FireTimer | src/services/schedule-service.ts:64-71 | Runs the armed task with exactly the effect of a scheduled run: the disk and the hash-directory cache are those the sweep of its accounts leaves. The totals are recorded on the stored task, and the config is saved only when that task is still stored. Then the stored task with that id is re-armed when it is still there and enabled. Otherwise only the fired timer is marked fired. |
| Scheduler.FirstFailing | src/services/schedule-service.ts:208-212 | The position of the first throwing account, with all accounts before it not throwing. |
| Scheduler.RunTaskNow | src/services/schedule-service.ts:194-219 | An unknown id changes nothing. Otherwise the accounts before the first throwing one are cleaned. A throw records and saves nothing. A full run records, saves, and returns the stored task and the totals. |
| Scheduler.RunNowMatchesScheduledRun | src/services/schedule-service.ts:194-219 | When no account throws, running now and running on schedule clean the same accounts with the same totals. |
| Scheduler.SweepIgnoresUnusedFailures | src/services/schedule-service.ts:91-101 | Failures of accounts outside the list do not matter. |
| Scheduler.AllFailingCleansNothing | src/services/schedule-service.ts:91-101 | When every account throws, the disk, the cache and the totals are unchanged. |
| Scheduler.NewTask | src/services/schedule-service.ts:135-151 | Definition of the task `createScheduleTask` builds. Its meaning is proved by EmptyDraftDefaults and NewTaskOptions. |
| Scheduler.EmptyDraftDefaults | src/services/schedule-service.ts:141-151 | An empty draft gives an enabled daily task at 03:00 named "新任务" that cleans every account with the default options. |
| Scheduler.NewTaskOptions | src/services/schedule-service.ts:136-139 | A flag given in the draft wins over the default, and a separate `retainDays` wins over both. |
| Scheduler.CreateScheduleTask | src/services/schedule-service.ts:135-158 | Appends the new task, saves, and arms it. |
| Scheduler.CreatedTaskIsFound | src/services/schedule-service.ts:135-158 | The new task is last and is the one its id finds. Distinct ids stay distinct. |
| Scheduler.Assign | src/services/schedule-service.ts:170 | Definition of `Object.assign` of a patch onto a task. Its meaning is proved by UpdateScheduleTask and UpdateCanDuplicateIds. |
| Scheduler.UpdateScheduleTask | src/services/schedule-service.ts:163-175 | An unknown id gives none and changes nothing. Otherwise the first task with the id takes the patch's fields, is saved and is re-armed. |
| Scheduler.UpdateCanDuplicateIds | src/services/schedule-service.ts:163-175 | A patch that sets another task's id makes two tasks share it. The second one is no longer found, and its old timer stays. |
| Scheduler.DeleteScheduleTask | src/services/schedule-service.ts:180-189 | An unknown id gives false and changes nothing. Otherwise the first task with the id and its timer are removed, and the config is saved. |
| Scheduler.DeleteRemovesOnlyThatTask | src/services/schedule-service.ts:180-189 | With distinct ids, after the deletion the id is no longer found, and every other task is still found, unchanged. |
| Scheduler.RemoveAtKeepsDistinct | src/services/schedule-service.ts:181-185 | Splicing one task out of a list with distinct ids leaves distinct ids, and none of them is the removed task's. |
| Scheduler.RemoveAtFindsOther | src/services/schedule-service.ts:181-185 | Splicing one task out does not change whether another id is found, nor the task it finds. |
| Legacy.ClaimCurrent | index.ts:511-516 | The probe's claim loop keeps the cache a valid ordered map. |
| Legacy.AccountsProbing | index.ts:479-522 | `getAllAccounts` of the old file, for a given probe directory, keeps the cache a valid ordered map. |
| Legacy.LegacyAccounts | index.ts:505-508 | The old file as written, with the probe under `.config/QQ`, keeps the cache valid. |
| Legacy.ProbedAccounts | index.ts:505-508 | The corrected probe at `nt_qq_<hash>` directly in the data directory keeps the cache valid. |
| Legacy.LegacyGetAllAccounts | index.ts:479-522 | Returns the accounts and stores the cache of the old file as written. No other field changes. |
| Legacy.ClaimCurrentInPlace | index.ts:511-516 | The probe's claim loop, on the plugin state: it lists the uins whose uid is the current one, caches the probed directory for each, and changes nothing else in the state. |
| Legacy.ClaimCurrentMembership | index.ts:511-516 | The probe lists exactly the known uins whose uid is the current one and caches the probed directory for each. Other entries are kept. |
| Legacy.CorrectedProbeListsCurrentAccount | index.ts:505-516 | With the corrected probe, a Linux plugin with an empty cache lists the current account and caches its hash directory. |
| Legacy.LegacyProbe | index.ts:505-507 | Definition of the old file's probe directory. Its meaning is proved by LegacyProbeMissesDataDir. |
| Legacy.LegacyProbeMissesDataDir | index.ts:505-508 | Counterexample: `getNtDataPath` resolves the account's `nt_data`, yet the old file lists no account, while the corrected probe lists it. |

## Left out

- One `now` per call: the source reads `Date.now()` again in every recursive call of the walkers, and again at each timer firing. The model passes the time as a parameter.
- Failures of `stat`, `readdir` and `rmdir`, symbolic links, and permissions are left out. The one exception is a file whose unlink throws, modelled as `locked`.
- Directory listings are in `readdir` order, and names are assumed unique where a lemma needs them (`DistinctNames`, `DistinctIds`).
- Exceptions thrown inside `executeClean` are an input set `failing` of accounts. Such an account throws before it has any effect, so partial effects before a throw are not modelled.
- Scheduler.FireTimer: the timer holds a copy of the task taken when it was armed. The source holds a reference to the stored object, so the two differ only when an update changes a task's id, or the list is replaced, while a timer is pending.
- Scheduler.NextRun: a weekly task whose target weekday is outside 0 to 6 gets no timer in the model. In the source the day-stepping loop never ends for it and blocks the event loop; see Findings.
- Time zones and daylight saving time are not modelled. Days are fixed-length, start at UTC midnight, and `setDate`/`setHours` are fixed-length shifts.
- `lastRun` is a millisecond timestamp, not an ISO string, so an unparsable date is not modelled. `lastResult` keeps the totals instead of the formatted text.
- Update and create bodies cannot set a field to `undefined` or `null`. A field is either given or absent.
- `formatSize`, `generateId` (a fresh id is a parameter), and the internals of md5 are left out. The hash function is a parameter.
- JSON reading and writing, the config path and directory creation are left out. `saveConfig` records the config it would write, and `loadConfig` receives the parsed patch.
- Logging inside the cleaner and the scheduler, the web UI, `src/services/api-service.ts` and `src/index.ts` are not part of this model.
- Cleaner.SecondCleanIsNoop: stated for a second clean over the same directory record. A second `executeClean` resolves its directories again on the cleaned disk, and the model does not prove that these are among the first run's directories. They can be fewer: a `Thumb` directory that the first run emptied and removed drops out.
- Concurrency is not modelled. A timer firing is an explicit step, and nothing runs between two steps.

## Findings

| source | as written | input that shows it | evidently intended | confidence | as-written member | corrected member |
|---|---|---|---|---|---|---|
| index.ts:505-508 | On Linux with nothing cached, `getAllAccounts` probes `dataPath/.config/QQ/nt_qq_<hash>`. | `dataPath` holds `nt_qq_<hash(u_1)>/nt_data`, uin 10001 maps to uid `u_1`, which is the current uid, and the cache is empty. `getNtDataPath` of the same file resolves `nt_data`, but `getAllAccounts` returns `[]`. | Probe `dataPath/nt_qq_<hash>`, the directory `getNtDataPath` in the same file and `getAllAccounts` in `src/` use. `plugin_init` (index.ts:674-700) caches that directory when it exists at start-up, so the defect shows only when it appears after start-up. | not executed | Legacy.LegacyProbeMissesDataDir | Legacy.CorrectedProbeListsCurrentAccount |
| src/services/schedule-service.ts:60-71 | The timer is set with `setTimeout(cb, nextRun - now)`. Node waits 1 ms instead of any delay above 2^31 - 1 ms (about 24.8 days). | An enabled interval task with `frequencyValue` 30 and a valid clock runs. It records `lastRun` = now, and its next run is 30 days later at its clock time. The timer then fires after 1 ms, the task runs again, and so on every millisecond. | Run the task once, N days after its last run, waiting in steps `setTimeout` honours. | not executed | Scheduler.LongIntervalRearmsAtOnce | Scheduler.SteppedWakeRunsAtNextRun |
| src/services/schedule-service.ts:41-45 | A weekly task steps day by day until `getDay()` equals `frequencyValue ?? 0`, with no range check. | In the create dialog (webui/src/components/CreateTaskModal.tsx:18, :42, :185-193), choose interval, enter 10, then choose weekly without picking a day, and save. The create route stores `frequencyValue` 10 unchecked (src/services/schedule-service.ts:149). `setupScheduleTask` for that task never leaves the loop and blocks the event loop. | A weekly target outside 0 to 6 gets no timer. | not executed | Scheduler.WeeklyLoopNeverEnds | Scheduler.WeeklyRunsOnTargetDay |
