/**
 * `src/services/schedule-service.ts`: scheduled cleaning tasks. A task is
 * armed with a one-shot timer for its next run; when the timer fires the task
 * cleans its accounts, records the outcome on the stored task, and is armed
 * again. Timers live in the state's registry; firing one is an explicit step.
 */
module Scheduler {
  import opened Wrappers
  import opened FileTree
  import opened Types
  import opened Time
  import opened OrderedMaps
  import opened State
  import opened NtPaths
  import opened Accounts
  import opened Cleaner

  // ---------------------------------------------------------------------------
  // When a task runs next

  /** `task.frequency || 'daily'`. */
  function FrequencyOf(t: ScheduleTask): Frequency {
    t.frequency.GetOr(Daily)
  }

  /** `task.frequencyValue || 3`: an absent or zero value means three days. */
  function IntervalDays(t: ScheduleTask): (r: int)
    ensures r != 0
  {
    if t.frequencyValue.None? || t.frequencyValue.value == 0 then 3 else t.frequencyValue.value
  }

  /** `task.frequencyValue ?? 0`: the weekday a weekly task runs on. */
  function TargetDay(t: ScheduleTask): int {
    t.frequencyValue.GetOr(0)
  }

  /** Today at the task's clock time, or tomorrow at it when that has already passed. */
  function FirstSlot(t: ScheduleTask, now: int): int {
    var today := AtTime(now, t.cronHour, t.cronMinute);
    if today <= now then today + DAY else today
  }

  /** The run `lastRun + N days` at the task's clock time, for an interval task that ran before. */
  function IntervalSlot(t: ScheduleTask): Option<int> {
    if t.lastRun.Some? then Some(AtTime(t.lastRun.value + IntervalDays(t) * DAY, t.cronHour, t.cronMinute)) else None
  }

  /**
   * The time `setupScheduleTask` arms the timer for. `None` for a weekly task
   * whose target weekday is outside 0..6: there the source's day-stepping loop
   * never ends.
   */
  function NextRun(t: ScheduleTask, now: int): Option<int> {
    var slot := FirstSlot(t, now);
    match FrequencyOf(t)
    case Daily => Some(slot)
    case Weekly =>
      if 0 <= TargetDay(t) < 7 then Some(slot + ((TargetDay(t) - Weekday(slot)) % 7) * DAY) else None
    case Interval =>
      var later := IntervalSlot(t);
      if later.Some? && later.value > now then later else Some(slot)
  }

  /** Adding `(target - w) % 7` days to a day of weekday `w` lands on `target`. */
  lemma DaysToWeekday(t: int, target: int)
    requires 0 <= target < 7
    ensures Weekday(t + ((target - Weekday(t)) % 7) * DAY) == target
  {
    var k := (target - Weekday(t)) % 7;
    WeekdayAddDays(t, k);
  }

  /** Whole days from `0 <= k < 7` that reach the target weekday are exactly the computed offset. */
  lemma WeekdayOffsetUnique(w: int, target: int, k: int)
    requires 0 <= w < 7 && 0 <= target < 7 && 0 <= k < 7
    ensures (w + k) % 7 == target <==> k == (target - w) % 7
  {
  }

  lemma NextWeekday(w: int, k: int)
    requires 0 <= w < 7 && 0 <= k < 7
    ensures ((w + k) % 7 + 1) % 7 == (w + k + 1) % 7
  {
  }

  /** The loop `while (nextRun.getDay() !== targetDay) nextRun.setDate(nextRun.getDate() + 1)`. */
  method StepToWeekday(slot: int, target: int) returns (next: int)
    requires 0 <= target < 7
    ensures next == slot + ((target - Weekday(slot)) % 7) * DAY
  {
    next := slot;
    ghost var w := Weekday(slot);
    ghost var k := 0;
    ghost var days := (target - w) % 7;
    while Weekday(next) != target
      invariant 0 <= k <= days < 7
      invariant next == slot + k * DAY
      invariant Weekday(next) == (w + k) % 7
      decreases days - k
    {
      WeekdayOffsetUnique(w, target, k);
      WeekdayNextDay(next);
      NextWeekday(w, k);
      next := next + DAY;
      k := k + 1;
    }
    WeekdayOffsetUnique(w, target, k);
  }

  /** The day-stepping computation of `setupScheduleTask`. */
  method ComputeNextRun(t: ScheduleTask, now: int) returns (r: Option<int>)
    ensures r == NextRun(t, now)
  {
    var next := AtTime(now, t.cronHour, t.cronMinute);
    if next <= now {
      next := next + DAY;
    }
    var freq := FrequencyOf(t);
    if freq == Weekly {
      var target := TargetDay(t);
      if !(0 <= target < 7) {
        return None;
      }
      next := StepToWeekday(next, target);
    } else if freq == Interval {
      var n := IntervalDays(t);
      if t.lastRun.Some? {
        var later := AtTime(t.lastRun.value + n * DAY, t.cronHour, t.cronMinute);
        if later > now {
          next := later;
        }
      }
    }
    return Some(next);
  }

  /** The first slot is strictly after `now`, at most a day later, and at the task's clock time. */
  lemma FirstSlotWithinADay(t: ScheduleTask, now: int)
    requires ValidClock(t.cronHour, t.cronMinute)
    ensures var s := FirstSlot(t, now);
      now < s <= now + DAY && AtTime(s, t.cronHour, t.cronMinute) == s
  {
    var off := t.cronHour * HOUR + t.cronMinute * MINUTE;
    var d := DayStart(now);
    DayStartOfMidnightPlus(d, off);
    DayStartShift(d + off, 1);
  }

  /** A daily task runs next strictly within the coming day, at its clock time. */
  lemma DailyRunsWithinADay(t: ScheduleTask, now: int)
    requires ValidClock(t.cronHour, t.cronMinute) && FrequencyOf(t) == Daily
    ensures NextRun(t, now).Some?
    ensures var r := NextRun(t, now).value;
      now < r <= now + DAY && AtTime(r, t.cronHour, t.cronMinute) == r
  {
    FirstSlotWithinADay(t, now);
  }

  /**
   * A weekly task with a target in 0..6 runs next on that weekday, at its
   * clock time, strictly after `now` and within a week; with any other target
   * it is never armed.
   */
  lemma WeeklyRunsOnTargetDay(t: ScheduleTask, now: int)
    requires ValidClock(t.cronHour, t.cronMinute) && FrequencyOf(t) == Weekly
    ensures NextRun(t, now).Some? <==> 0 <= TargetDay(t) < 7
    ensures NextRun(t, now).Some? ==>
      var r := NextRun(t, now).value;
      && Weekday(r) == TargetDay(t)
      && now < r <= now + 7 * DAY
      && AtTime(r, t.cronHour, t.cronMinute) == r
  {
    if 0 <= TargetDay(t) < 7 {
      var s := FirstSlot(t, now);
      var k := (TargetDay(t) - Weekday(s)) % 7;
      FirstSlotWithinADay(t, now);
      DaysToWeekday(s, TargetDay(t));
      DayStartShift(s, k);
    }
  }

  /**
   * The day-stepping loop of `setupScheduleTask` as written, allowed at most
   * `steps` more steps: the day it stops on, or `None` while it is still
   * stepping.
   */
  function StepToWeekdayWithin(day: int, target: int, steps: nat): Option<int>
    decreases steps
  {
    if Weekday(day) == target then Some(day)
    else if steps == 0 then None
    else StepToWeekdayWithin(day + DAY, target, steps - 1)
  }

  /** With a target outside 0..6 the loop has not stopped after any number of steps. */
  lemma {:induction false} WeeklyLoopNeverEnds(day: int, target: int, steps: nat)
    requires !(0 <= target < 7)
    ensures StepToWeekdayWithin(day, target, steps).None?
    decreases steps
  {
    if steps > 0 {
      WeeklyLoopNeverEnds(day + DAY, target, steps - 1);
    }
  }

  /** With a target in 0..6 the loop stops within six steps, on the day `NextRun` picks. */
  lemma {:induction false} WeeklyLoopStops(day: int, target: int, steps: nat)
    requires 0 <= target < 7 && (target - Weekday(day)) % 7 <= steps
    ensures StepToWeekdayWithin(day, target, steps) == Some(day + ((target - Weekday(day)) % 7) * DAY)
    decreases steps
  {
    var w := Weekday(day);
    if w != target {
      WeekdayNextDay(day);
      assert (target - (w + 1) % 7) % 7 == (target - w) % 7 - 1;
      WeeklyLoopStops(day + DAY, target, steps - 1);
    }
  }

  /**
   * An interval task that ran before runs `N` days after that run, at its
   * clock time, when that is still to come; otherwise (and when it never ran)
   * it runs at the first slot.
   */
  lemma IntervalRunsNDaysAfterLastRun(t: ScheduleTask, now: int)
    requires ValidClock(t.cronHour, t.cronMinute) && FrequencyOf(t) == Interval
    ensures NextRun(t, now).Some?
    ensures var r := NextRun(t, now).value;
      && now < r
      && AtTime(r, t.cronHour, t.cronMinute) == r
      && (IntervalSlot(t).Some? && IntervalSlot(t).value > now ==> Some(r) == IntervalSlot(t))
      && (IntervalSlot(t).None? || IntervalSlot(t).value <= now ==> r == FirstSlot(t, now))
  {
    FirstSlotWithinADay(t, now);
    if t.lastRun.Some? {
      var base := t.lastRun.value + IntervalDays(t) * DAY;
      var off := t.cronHour * HOUR + t.cronMinute * MINUTE;
      DayStartOfMidnightPlus(DayStart(base), off);
    }
  }

  /**
   * A daily task that fires at its slot is armed again for exactly one day
   * later: it neither runs twice in a day nor skips one.
   */
  lemma DailyRearmsOneDayLater(t: ScheduleTask, now: int)
    requires ValidClock(t.cronHour, t.cronMinute) && FrequencyOf(t) == Daily
    ensures NextRun(t, now).Some?
    ensures NextRun(t, NextRun(t, now).value) == Some(NextRun(t, now).value + DAY)
  {
    DailyRunsWithinADay(t, now);
    var r := NextRun(t, now).value;
    var off := t.cronHour * HOUR + t.cronMinute * MINUTE;
    assert DayStart(r) + off == r;
  }

  // ---------------------------------------------------------------------------
  // Finding tasks

  /** `scheduleTasks.findIndex(t => t.id === id)`. */
  function FindTask(tasks: seq<ScheduleTask>, id: string): (r: Option<nat>)
    ensures r.Some? ==> r.value < |tasks| && tasks[r.value].id == id
    ensures r.Some? ==> forall j :: 0 <= j < r.value ==> tasks[j].id != id
    ensures r.None? ==> forall j :: 0 <= j < |tasks| ==> tasks[j].id != id
  {
    FindTaskFrom(tasks, id, 0)
  }

  /**
   * The search behind `FindTask`. It is the same first-match scan as
   * `FileTree.FindFrom`, keyed on the task id instead of the entry name. A
   * shared version would take the key as a function value, and every proof
   * about paths would then have to see through that function.
   */
  function FindTaskFrom(tasks: seq<ScheduleTask>, id: string, k: nat): (r: Option<nat>)
    requires k <= |tasks|
    requires forall j :: 0 <= j < k ==> tasks[j].id != id
    ensures r.Some? ==> k <= r.value < |tasks| && tasks[r.value].id == id
    ensures r.Some? ==> forall j :: 0 <= j < r.value ==> tasks[j].id != id
    ensures r.None? ==> forall j :: 0 <= j < |tasks| ==> tasks[j].id != id
    decreases |tasks| - k
  {
    if k == |tasks| then None
    else if tasks[k].id == id then Some(k)
    else FindTaskFrom(tasks, id, k + 1)
  }

  predicate DistinctIds(tasks: seq<ScheduleTask>) {
    forall i, j :: 0 <= i < j < |tasks| ==> tasks[i].id != tasks[j].id
  }

  // ---------------------------------------------------------------------------
  // Timers

  /** The longest delay Node's `setTimeout` honours, 2^31 - 1 milliseconds. */
  const MaxTimerDelay: int := 2147483647

  /**
   * The delay `setTimeout(cb, ms)` really waits: a requested delay above
   * `MaxTimerDelay` or below one millisecond becomes one millisecond.
   */
  function TimerDelay(ms: int): (r: int)
    ensures 1 <= r <= MaxTimerDelay
    ensures 1 <= ms <= MaxTimerDelay ==> r == ms
  {
    if ms > MaxTimerDelay || ms < 1 then 1 else ms
  }

  /**
   * When the timer armed at `now` fires: the source asks `setTimeout` for
   * `nextRun - now` milliseconds.
   */
  function FireAt(t: ScheduleTask, now: int): Option<int> {
    match NextRun(t, now)
    case Some(r) => Some(now + TimerDelay(r - now))
    case None => None
  }

  /** The next run of a task with a valid clock is strictly after `now`. */
  lemma NextRunAfterNow(t: ScheduleTask, now: int)
    requires ValidClock(t.cronHour, t.cronMinute)
    ensures NextRun(t, now).Some? ==> now < NextRun(t, now).value
  {
    match FrequencyOf(t)
    case Daily => DailyRunsWithinADay(t, now);
    case Weekly => WeeklyRunsOnTargetDay(t, now);
    case Interval => IntervalRunsNDaysAfterLastRun(t, now);
  }

  /**
   * The timer fires at the next run whenever the wait fits in a `setTimeout`
   * delay, and it always does for daily and weekly tasks.
   */
  lemma TimerFiresAtNextRun(t: ScheduleTask, now: int)
    requires ValidClock(t.cronHour, t.cronMinute)
    ensures NextRun(t, now).Some? && NextRun(t, now).value - now <= MaxTimerDelay ==> FireAt(t, now) == NextRun(t, now)
    ensures FrequencyOf(t) != Interval ==> FireAt(t, now) == NextRun(t, now)
  {
    NextRunAfterNow(t, now);
    if FrequencyOf(t) == Daily {
      DailyRunsWithinADay(t, now);
    } else if FrequencyOf(t) == Weekly {
      WeeklyRunsOnTargetDay(t, now);
    }
  }

  /** The registry after `setupScheduleTask(t)` at `now`. */
  function Armed(timers: map<string, Timer>, t: ScheduleTask, now: int): map<string, Timer> {
    var cleared := timers - {t.id};
    if t.enabled && FireAt(t, now).Some? then cleared[t.id := Timer(FireAt(t, now).value, true, t)] else cleared
  }

  /**
   * Setting up a task replaces whatever timer its id had: an enabled task
   * with a next run gets a pending timer that fires when `setTimeout` fires
   * for that run, a disabled one none; the timers of other ids stay.
   */
  lemma SetupReplacesOnlyItsTimer(timers: map<string, Timer>, t: ScheduleTask, now: int)
    ensures var r := Armed(timers, t, now);
      && (t.id in r <==> t.enabled && NextRun(t, now).Some?)
      && (t.id in r ==> r[t.id] == Timer(FireAt(t, now).value, true, t))
      && (forall id :: id != t.id ==> (id in r <==> id in timers) && (id in r ==> r[id] == timers[id]))
  {
  }

  /**
   * An interval task of 26 days or more that has just run asks for a wait
   * longer than `MaxTimerDelay`, so its timer fires one millisecond later.
   */
  lemma LongIntervalFiresAtOnce(t: ScheduleTask, now: int)
    requires ValidClock(t.cronHour, t.cronMinute) && FrequencyOf(t) == Interval
    requires IntervalDays(t) >= 26 && t.lastRun == Some(now)
    ensures NextRun(t, now).Some? && NextRun(t, now).value > now + MaxTimerDelay
    ensures FireAt(t, now) == Some(now + 1)
  {
    var base := now + IntervalDays(t) * DAY;
    assert IntervalDays(t) * DAY >= 26 * DAY;
    assert DayStart(base) > base - DAY;
    IntervalRunsNDaysAfterLastRun(t, now);
  }

  /**
   * The re-arm after a run of such a task: the run records `lastRun := now`,
   * and the stored task is armed again to fire one millisecond later, and so
   * on after every run, instead of 26 or more days later.
   */
  lemma LongIntervalRearmsAtOnce(timers: map<string, Timer>, tasks: seq<ScheduleTask>, i: nat, now: int, total: Counts)
    requires i < |tasks| && FindTask(tasks, tasks[i].id) == Some(i)
    requires tasks[i].enabled && ValidClock(tasks[i].cronHour, tasks[i].cronMinute)
    requires FrequencyOf(tasks[i]) == Interval && IntervalDays(tasks[i]) >= 26
    ensures var current := RecordRun(tasks, tasks[i].id, now, total)[i];
      && current.id == tasks[i].id && current.lastRun == Some(now)
      && Armed(timers, current, now)[current.id].fireAt == now + 1
  {
    var current := RecordRun(tasks, tasks[i].id, now, total)[i];
    LongIntervalFiresAtOnce(current, now);
  }

  /** One wake-up of a timer that waits in steps `setTimeout` honours. */
  datatype Wake = Wake(at: int, runs: bool)

  /**
   * A timer that never asks for more than `MaxTimerDelay`: a longer wait is
   * cut to that, and the wake-up arms the task again without running it.
   */
  function SteppedWake(t: ScheduleTask, now: int): Option<Wake> {
    match NextRun(t, now)
    case Some(r) => if r - now > MaxTimerDelay then Some(Wake(now + MaxTimerDelay, false)) else Some(Wake(r, true))
    case None => None
  }

  /**
   * Every step is a delay `setTimeout` waits in full, the task runs only at
   * its next run, and an intermediate wake-up leaves that next run where it
   * was: a long interval task runs once, N days after its last run.
   */
  lemma SteppedWakeRunsAtNextRun(t: ScheduleTask, now: int)
    requires ValidClock(t.cronHour, t.cronMinute) && NextRun(t, now).Some?
    ensures SteppedWake(t, now).Some?
    ensures var w := SteppedWake(t, now).value;
      && now < w.at <= NextRun(t, now).value
      && TimerDelay(w.at - now) == w.at - now
      && (w.runs <==> w.at == NextRun(t, now).value)
      && (!w.runs ==> NextRun(t, w.at) == NextRun(t, now))
  {
    NextRunAfterNow(t, now);
    var w := SteppedWake(t, now).value;
    if !w.runs {
      match FrequencyOf(t)
      case Daily => DailyRunsWithinADay(t, now);
      case Weekly => WeeklyRunsOnTargetDay(t, now);
      case Interval =>
        IntervalRunsNDaysAfterLastRun(t, now);
        FirstSlotWithinADay(t, now);
    }
  }

  /** The fields the scheduler leaves alone. */
  twostate predicate KeepsAccountsAndLog(st: PluginState)
    reads st
  {
    && st.dataPath == old(st.dataPath) && st.uinToUid == old(st.uinToUid) && st.currentUid == old(st.currentUid)
    && st.hasLogger == old(st.hasLogger) && st.logged == old(st.logged)
  }

  /** `clearScheduleTimer(taskId)`. */
  method ClearScheduleTimer(st: PluginState, id: string)
    modifies st
    ensures st.scheduleTimers == old(st.scheduleTimers) - {id}
    ensures KeepsAccountsAndLog(st)
    ensures st.config == old(st.config) && st.saved == old(st.saved) && st.uinToHashDir == old(st.uinToHashDir)
  {
    if id in st.scheduleTimers {
      st.scheduleTimers := st.scheduleTimers - {id};
    }
  }

  /** `setupScheduleTask(task)` at time `now`. */
  method SetupScheduleTask(st: PluginState, t: ScheduleTask, now: int)
    modifies st
    ensures st.scheduleTimers == Armed(old(st.scheduleTimers), t, now)
    ensures KeepsAccountsAndLog(st)
    ensures st.config == old(st.config) && st.saved == old(st.saved) && st.uinToHashDir == old(st.uinToHashDir)
  {
    ClearScheduleTimer(st, t.id);
    if !t.enabled {
      return;
    }
    var next := ComputeNextRun(t, now);
    if next.Some? {
      var msUntilNextRun := next.value - now;
      st.scheduleTimers := st.scheduleTimers[t.id := Timer(now + TimerDelay(msUntilNextRun), true, t)];
    }
  }

  /** The registry after `setupScheduleTask` on each of `tasks` in order. */
  function ArmAll(timers: map<string, Timer>, tasks: seq<ScheduleTask>, now: int): map<string, Timer> {
    if tasks == [] then timers
    else Armed(ArmAll(timers, tasks[..|tasks| - 1], now), tasks[|tasks| - 1], now)
  }

  /** `initAllScheduleTasks()`. */
  method InitAllScheduleTasks(st: PluginState, now: int)
    modifies st
    ensures st.scheduleTimers == ArmAll(old(st.scheduleTimers), st.config.scheduleTasks, now)
    ensures KeepsAccountsAndLog(st)
    ensures st.config == old(st.config) && st.saved == old(st.saved) && st.uinToHashDir == old(st.uinToHashDir)
  {
    var tasks := st.config.scheduleTasks;
    var i := 0;
    while i < |tasks|
      invariant 0 <= i <= |tasks|
      invariant st.scheduleTimers == ArmAll(old(st.scheduleTimers), tasks[..i], now)
      invariant KeepsAccountsAndLog(st)
      invariant st.config == old(st.config) && st.saved == old(st.saved) && st.uinToHashDir == old(st.uinToHashDir)
    {
      assert tasks[..i + 1][..i] == tasks[..i];
      SetupScheduleTask(st, tasks[i], now);
      i := i + 1;
    }
    assert tasks[..i] == tasks;
  }

  /**
   * After arming a list of tasks with distinct ids, each task has a pending
   * timer exactly when it is enabled and has a next run, armed with that task
   * to fire as `setTimeout` times that run; an id no task has keeps the timer
   * it had.
   */
  lemma {:induction false} InitArmsEnabledTasks(timers: map<string, Timer>, tasks: seq<ScheduleTask>, now: int, id: string)
    requires DistinctIds(tasks)
    ensures var r := ArmAll(timers, tasks, now);
      match FindTask(tasks, id)
      case Some(i) =>
        && (id in r <==> tasks[i].enabled && NextRun(tasks[i], now).Some?)
        && (id in r ==> r[id] == Timer(FireAt(tasks[i], now).value, true, tasks[i]))
      case None =>
        (id in r <==> id in timers) && (id in r ==> r[id] == timers[id])
  {
    if tasks != [] {
      var init, l := tasks[..|tasks| - 1], tasks[|tasks| - 1];
      InitArmsEnabledTasks(timers, init, now, id);
      SetupReplacesOnlyItsTimer(ArmAll(timers, init, now), l, now);
      if l.id == id {
        assert FindTask(tasks, id) == Some(|tasks| - 1);
      } else {
        assert FindTask(tasks, id) == FindTask(init, id) by {
          var f, g := FindTask(tasks, id), FindTask(init, id);
          if f.Some? {
            assert f.value < |init| && init[f.value] == tasks[f.value];
          }
          if g.Some? {
            assert tasks[g.value] == init[g.value];
          }
        }
      }
    }
  }

  /** `clearAllScheduleTimers()`. */
  method ClearAllScheduleTimers(st: PluginState)
    modifies st
    ensures st.scheduleTimers == map[]
    ensures KeepsAccountsAndLog(st)
    ensures st.config == old(st.config) && st.saved == old(st.saved) && st.uinToHashDir == old(st.uinToHashDir)
  {
    var ids := st.scheduleTimers.Keys;
    while ids != {}
      invariant st.scheduleTimers.Keys == ids
      invariant KeepsAccountsAndLog(st)
      invariant st.config == old(st.config) && st.saved == old(st.saved) && st.uinToHashDir == old(st.uinToHashDir)
      decreases ids
    {
      var id :| id in ids;
      ClearScheduleTimer(st, id);
      ids := ids - {id};
    }
    assert st.scheduleTimers.Keys == {};
  }

  // ---------------------------------------------------------------------------
  // Running a task

  /** The disk, the directory cache and the running totals while a task sweeps its accounts. */
  datatype Sweep = Sweep(root: Node, hashDirs: OrderedMap<string, Path>, total: Counts)

  /** `executeClean(dataPath, uin, options)` on the sweep so far. */
  function CleanAccount(isWindows: bool, dataPath: Path, uids: OrderedMap<string, string>, options: CleanOptions,
                        now: int, md5: string -> string, s: Sweep, uin: string): (r: Sweep)
    requires s.hashDirs.Valid()
    ensures r.hashDirs.Valid()
  {
    var res := ResolveNtData(isWindows, s.root, dataPath, uin, uids, s.hashDirs, md5);
    ResolvedPathExistsAndIsCached(isWindows, s.root, dataPath, uin, uids, s.hashDirs, md5);
    var paths := CategoryPaths(s.root, dataPath, res.ntData, NtTempPath(isWindows, s.root, res.hashDirs, uin));
    var run := CleanCategories(s.root, paths, options, now, AllCategories);
    Sweep(run.root, res.hashDirs, s.total.Plus(SumCategories(run.categories, AllCategories)))
  }

  /**
   * The account loop of `runScheduleTask`: an account in `failing` throws
   * and is skipped by the catch; every other account is cleaned in turn.
   */
  function SweepAccounts(isWindows: bool, dataPath: Path, uids: OrderedMap<string, string>, options: CleanOptions,
                         now: int, md5: string -> string, failing: set<string>, accounts: seq<string>,
                         start: Sweep): (r: Sweep)
    requires start.hashDirs.Valid()
    ensures r.hashDirs.Valid()
  {
    if accounts == [] then start
    else
      var s := SweepAccounts(isWindows, dataPath, uids, options, now, md5, failing, accounts[..|accounts| - 1], start);
      var a := accounts[|accounts| - 1];
      if a in failing then s else CleanAccount(isWindows, dataPath, uids, options, now, md5, s, a)
  }

  /** The accounts a task cleans: its own list, or every account when the list is empty. */
  function TaskAccounts(isWindows: bool, root: Node, dataPath: Path, uids: OrderedMap<string, string>,
                        hashDirs: OrderedMap<string, Path>, md5: string -> string, t: ScheduleTask): (r: AccountScan)
    requires uids.Valid() && hashDirs.Valid()
    ensures r.hashDirs.Valid()
  {
    if t.accounts == [] then AllAccounts(isWindows, root, dataPath, uids, hashDirs, md5)
    else AccountScan(t.accounts, hashDirs)
  }

  /** Recording a run on the first stored task with the id: its time and its totals. */
  function RecordRun(tasks: seq<ScheduleTask>, id: string, now: int, total: Counts): seq<ScheduleTask> {
    match FindTask(tasks, id)
    case None => tasks
    case Some(i) => tasks[i := tasks[i].(lastRun := Some(now), lastResult := Some(RunSummary(total.files, total.size)))]
  }

  /**
   * The write-back touches only the stored task with the id, and only its
   * `lastRun` and `lastResult`; a task deleted meanwhile leaves the list as it was.
   */
  lemma RecordRunTouchesOnlyTheTask(tasks: seq<ScheduleTask>, id: string, now: int, total: Counts)
    ensures var r := RecordRun(tasks, id, now, total);
      && |r| == |tasks|
      && (FindTask(tasks, id).None? ==> r == tasks)
      && (forall j :: 0 <= j < |tasks| && Some(j) != FindTask(tasks, id) ==> r[j] == tasks[j])
      && (FindTask(tasks, id).Some? ==>
            var i := FindTask(tasks, id).value;
            r[i] == tasks[i].(lastRun := Some(now), lastResult := Some(RunSummary(total.files, total.size))))
  {
  }

  /** One account of the run loop: a failing account changes nothing, another one is cleaned. */
  method RunAccount(st: PluginState, disk: Disk, options: CleanOptions, now: int, md5: string -> string,
                    failing: set<string>, a: string) returns (c: Counts)
    requires st.Valid()
    modifies st, disk
    ensures st.Valid()
    ensures var s := Sweep(old(disk.root), old(st.uinToHashDir), Zero);
      Sweep(disk.root, st.uinToHashDir, c)
        == if a in failing then s else CleanAccount(st.isWindows, st.dataPath, st.uinToUid, options, now, md5, s, a)
    ensures KeepsAccountsAndLog(st)
    ensures st.config == old(st.config) && st.saved == old(st.saved) && st.scheduleTimers == old(st.scheduleTimers)
  {
    if a in failing {
      return Zero;
    }
    var stats := ExecuteClean(st, disk, st.dataPath, a, options, now, md5);
    c := Counts(stats.totalFiles, stats.totalSize);
  }

  /** `Sweep` totals start from zero and add up: shifting the start shifts the result. */
  lemma {:induction false} SweepFromZero(isWindows: bool, dataPath: Path, uids: OrderedMap<string, string>,
                                         options: CleanOptions, now: int, md5: string -> string,
                                         failing: set<string>, accounts: seq<string>, s: Sweep, a: string)
    requires s.hashDirs.Valid()
    ensures var one := if a in failing then Sweep(s.root, s.hashDirs, Zero)
                       else CleanAccount(isWindows, dataPath, uids, options, now, md5, Sweep(s.root, s.hashDirs, Zero), a);
      (if a in failing then s else CleanAccount(isWindows, dataPath, uids, options, now, md5, s, a))
        == Sweep(one.root, one.hashDirs, s.total.Plus(one.total))
  {
  }

  /**
   * One turn of an account loop: the sweep over the first `i + 1` accounts
   * continues the sweep over the first `i` with what the `i`-th account alone
   * does from zero.
   */
  lemma SweepLoopStep(isWindows: bool, dataPath: Path, uids: OrderedMap<string, string>, options: CleanOptions,
                      now: int, md5: string -> string, failing: set<string>, accounts: seq<string>, i: nat,
                      start: Sweep, before: Sweep, one: Sweep)
    requires i < |accounts| && start.hashDirs.Valid()
    requires before == SweepAccounts(isWindows, dataPath, uids, options, now, md5, failing, accounts[..i], start)
    requires one == if accounts[i] in failing then Sweep(before.root, before.hashDirs, Zero)
                    else CleanAccount(isWindows, dataPath, uids, options, now, md5, Sweep(before.root, before.hashDirs, Zero), accounts[i])
    ensures Sweep(one.root, one.hashDirs, before.total.Plus(one.total))
         == SweepAccounts(isWindows, dataPath, uids, options, now, md5, failing, accounts[..i + 1], start)
  {
    assert accounts[..i + 1][..i] == accounts[..i];
    SweepFromZero(isWindows, dataPath, uids, options, now, md5, failing, accounts[..i], before, accounts[i]);
  }

  /** The `for ... of accounts` loop of `runScheduleTask`, whose catch skips an account that throws. */
  method CleanEachAccount(st: PluginState, disk: Disk, accounts: seq<string>, options: CleanOptions, now: int,
                          md5: string -> string, failing: set<string>) returns (total: Counts)
    requires st.Valid()
    modifies st, disk
    ensures st.Valid()
    ensures Sweep(disk.root, st.uinToHashDir, total)
         == SweepAccounts(st.isWindows, st.dataPath, st.uinToUid, options, now, md5, failing, accounts,
                          Sweep(old(disk.root), old(st.uinToHashDir), Zero))
    ensures KeepsAccountsAndLog(st)
    ensures st.config == old(st.config) && st.saved == old(st.saved) && st.scheduleTimers == old(st.scheduleTimers)
  {
    ghost var start := Sweep(disk.root, st.uinToHashDir, Zero);
    total := Zero;
    var i := 0;
    while i < |accounts|
      invariant 0 <= i <= |accounts|
      invariant st.Valid()
      invariant start.hashDirs.Valid()
      invariant Sweep(disk.root, st.uinToHashDir, total)
             == SweepAccounts(st.isWindows, st.dataPath, st.uinToUid, options, now, md5, failing, accounts[..i], start)
      invariant KeepsAccountsAndLog(st)
      invariant st.config == old(st.config) && st.saved == old(st.saved) && st.scheduleTimers == old(st.scheduleTimers)
    {
      ghost var before := Sweep(disk.root, st.uinToHashDir, total);
      var c := RunAccount(st, disk, options, now, md5, failing, accounts[i]);
      SweepLoopStep(st.isWindows, st.dataPath, st.uinToUid, options, now, md5, failing, accounts, i, start, before,
                    Sweep(disk.root, st.uinToHashDir, c));
      total := total.Plus(c);
      i := i + 1;
    }
    assert accounts[..i] == accounts;
  }

  /** The account loop of `runTaskNow`, which has no catch: the first account that throws ends it. */
  method CleanAccountsUntilThrow(st: PluginState, disk: Disk, accounts: seq<string>, options: CleanOptions, now: int,
                                 md5: string -> string, failing: set<string>) returns (total: Counts, threw: Option<string>)
    requires st.Valid()
    modifies st, disk
    ensures st.Valid()
    ensures var k := FirstFailing(accounts, failing);
      && Sweep(disk.root, st.uinToHashDir, total)
           == SweepAccounts(st.isWindows, st.dataPath, st.uinToUid, options, now, md5, failing, accounts[..k],
                            Sweep(old(disk.root), old(st.uinToHashDir), Zero))
      && threw == (if k < |accounts| then Some(accounts[k]) else None)
    ensures KeepsAccountsAndLog(st)
    ensures st.config == old(st.config) && st.saved == old(st.saved) && st.scheduleTimers == old(st.scheduleTimers)
  {
    ghost var start := Sweep(disk.root, st.uinToHashDir, Zero);
    ghost var k := FirstFailing(accounts, failing);
    total := Zero;
    var i := 0;
    while i < |accounts|
      invariant 0 <= i <= k
      invariant st.Valid()
      invariant start.hashDirs.Valid()
      invariant Sweep(disk.root, st.uinToHashDir, total)
             == SweepAccounts(st.isWindows, st.dataPath, st.uinToUid, options, now, md5, failing, accounts[..i], start)
      invariant KeepsAccountsAndLog(st)
      invariant st.config == old(st.config) && st.saved == old(st.saved) && st.scheduleTimers == old(st.scheduleTimers)
    {
      if accounts[i] in failing {
        assert i == k;
        return total, Some(accounts[i]);
      }
      assert i < k;
      ghost var before := Sweep(disk.root, st.uinToHashDir, total);
      var c := RunAccount(st, disk, options, now, md5, failing, accounts[i]);
      SweepLoopStep(st.isWindows, st.dataPath, st.uinToUid, options, now, md5, failing, accounts, i, start, before,
                    Sweep(disk.root, st.uinToHashDir, c));
      total := total.Plus(c);
      i := i + 1;
    }
    assert i == k;
    threw := None;
  }

  /** `runScheduleTask(task)`; accounts in `failing` throw inside `executeClean`. */
  method RunScheduleTask(st: PluginState, disk: Disk, t: ScheduleTask, now: int, md5: string -> string,
                         failing: set<string>)
    requires st.Valid()
    modifies st, disk
    ensures st.Valid()
    ensures var acc := TaskAccounts(st.isWindows, old(disk.root), st.dataPath, st.uinToUid, old(st.uinToHashDir), md5, t);
      var s := SweepAccounts(st.isWindows, st.dataPath, st.uinToUid, t.options, now, md5, failing, acc.accounts,
                             Sweep(old(disk.root), acc.hashDirs, Zero));
      && disk.root == s.root && st.uinToHashDir == s.hashDirs
      && st.config == old(st.config).(scheduleTasks := RecordRun(old(st.config.scheduleTasks), t.id, now, s.total))
      && st.saved == (if FindTask(old(st.config.scheduleTasks), t.id).Some? then Some(st.config) else old(st.saved))
    ensures KeepsAccountsAndLog(st) && st.scheduleTimers == old(st.scheduleTimers)
  {
    var accounts := t.accounts;
    if |accounts| == 0 {
      accounts := GetAllAccounts(st, disk, st.dataPath, md5);
    }
    var total := CleanEachAccount(st, disk, accounts, t.options, now, md5, failing);
    var found := FindTask(st.config.scheduleTasks, t.id);
    if found.Some? {
      st.config := st.config.(scheduleTasks := RecordRun(st.config.scheduleTasks, t.id, now, total));
      st.SaveConfig();
    }
  }

  /**
   * The `setTimeout` callback of the timer under `id`, fired at `now`: the
   * task it was armed with runs, and the stored task with that id, if still
   * there and enabled, is armed again. The fired handle stays in the registry
   * until something clears it.
   */
  method FireTimer(st: PluginState, disk: Disk, id: string, now: int, md5: string -> string, failing: set<string>)
    requires st.Valid()
    requires id in st.scheduleTimers && st.scheduleTimers[id].pending && st.scheduleTimers[id].fireAt <= now
    modifies st, disk
    ensures st.Valid()
    ensures var t := old(st.scheduleTimers[id].task);
      var fired := old(st.scheduleTimers)[id := old(st.scheduleTimers[id]).(pending := false)];
      var current := FindTask(st.config.scheduleTasks, t.id);
      && (current.Some? && st.config.scheduleTasks[current.value].enabled ==>
            st.scheduleTimers == Armed(fired, st.config.scheduleTasks[current.value], now))
      && (current.None? || !st.config.scheduleTasks[current.value].enabled ==> st.scheduleTimers == fired)
      && |st.config.scheduleTasks| == |old(st.config.scheduleTasks)|
    ensures var t := old(st.scheduleTimers[id].task);
      var acc := TaskAccounts(st.isWindows, old(disk.root), st.dataPath, st.uinToUid, old(st.uinToHashDir), md5, t);
      var s := SweepAccounts(st.isWindows, st.dataPath, st.uinToUid, t.options, now, md5, failing, acc.accounts,
                             Sweep(old(disk.root), acc.hashDirs, Zero));
      && disk.root == s.root && st.uinToHashDir == s.hashDirs
      && st.config == old(st.config).(scheduleTasks := RecordRun(old(st.config.scheduleTasks), t.id, now, s.total))
      && st.saved == (if FindTask(old(st.config.scheduleTasks), t.id).Some? then Some(st.config) else old(st.saved))
    ensures KeepsAccountsAndLog(st)
  {
    var timer := st.scheduleTimers[id];
    st.scheduleTimers := st.scheduleTimers[id := timer.(pending := false)];
    RunScheduleTask(st, disk, timer.task, now, md5, failing);
    var current := FindTask(st.config.scheduleTasks, timer.task.id);
    if current.Some? && st.config.scheduleTasks[current.value].enabled {
      SetupScheduleTask(st, st.config.scheduleTasks[current.value], now);
    }
  }

  /** The outcome of `runTaskNow(id)`. */
  datatype RunNowResult =
    | NotFound
    | Threw(account: string)
    | Done(task: ScheduleTask, total: Counts)

  /** Position of the first account that throws, or the number of accounts when none does. */
  function FirstFailing(accounts: seq<string>, failing: set<string>): (k: nat)
    ensures k <= |accounts|
    ensures forall j :: 0 <= j < k ==> accounts[j] !in failing
    ensures k < |accounts| ==> accounts[k] in failing
  {
    if accounts == [] then 0
    else if accounts[0] in failing then 0
    else 1 + FirstFailing(accounts[1..], failing)
  }

  /**
   * `runTaskNow(id)`: like a scheduled run, but without the catch: the first
   * account that throws aborts the run, after the accounts before it were
   * cleaned and before anything is recorded.
   */
  method RunTaskNow(st: PluginState, disk: Disk, id: string, now: int, md5: string -> string, failing: set<string>)
    returns (r: RunNowResult)
    requires st.Valid()
    modifies st, disk
    ensures st.Valid()
    ensures FindTask(old(st.config.scheduleTasks), id).None? <==> r == NotFound
    ensures r == NotFound ==> disk.root == old(disk.root) && st.uinToHashDir == old(st.uinToHashDir)
                              && st.config == old(st.config) && st.saved == old(st.saved)
    ensures r != NotFound ==>
      var t := old(st.config.scheduleTasks)[FindTask(old(st.config.scheduleTasks), id).value];
      var acc := TaskAccounts(st.isWindows, old(disk.root), st.dataPath, st.uinToUid, old(st.uinToHashDir), md5, t);
      var k := FirstFailing(acc.accounts, failing);
      var s := SweepAccounts(st.isWindows, st.dataPath, st.uinToUid, t.options, now, md5, failing, acc.accounts[..k],
                             Sweep(old(disk.root), acc.hashDirs, Zero));
      && disk.root == s.root && st.uinToHashDir == s.hashDirs
      && (k < |acc.accounts| ==> r == Threw(acc.accounts[k]) && st.config == old(st.config) && st.saved == old(st.saved))
      && (k == |acc.accounts| ==>
            && st.config == old(st.config).(scheduleTasks := RecordRun(old(st.config.scheduleTasks), id, now, s.total))
            && st.saved == Some(st.config)
            && r == Done(st.config.scheduleTasks[FindTask(old(st.config.scheduleTasks), id).value], s.total))
    ensures KeepsAccountsAndLog(st) && st.scheduleTimers == old(st.scheduleTimers)
  {
    var found := FindTask(st.config.scheduleTasks, id);
    if found.None? {
      return NotFound;
    }
    var t := st.config.scheduleTasks[found.value];
    var accounts := t.accounts;
    if |accounts| == 0 {
      accounts := GetAllAccounts(st, disk, st.dataPath, md5);
    }
    var total, threw := CleanAccountsUntilThrow(st, disk, accounts, t.options, now, md5, failing);
    if threw.Some? {
      return Threw(threw.value);
    }
    st.config := st.config.(scheduleTasks := RecordRun(st.config.scheduleTasks, id, now, total));
    st.SaveConfig();
    return Done(st.config.scheduleTasks[found.value], total);
  }

  /**
   * When no account throws, running a task now and running it on schedule
   * clean the same accounts with the same totals.
   */
  lemma RunNowMatchesScheduledRun(isWindows: bool, dataPath: Path, uids: OrderedMap<string, string>,
                                  options: CleanOptions, now: int, md5: string -> string,
                                  failing: set<string>, accounts: seq<string>, start: Sweep)
    requires start.hashDirs.Valid()
    requires forall a :: a in accounts ==> a !in failing
    ensures FirstFailing(accounts, failing) == |accounts|
    ensures SweepAccounts(isWindows, dataPath, uids, options, now, md5, failing, accounts[..FirstFailing(accounts, failing)], start)
         == SweepAccounts(isWindows, dataPath, uids, options, now, md5, {}, accounts, start)
  {
    assert accounts[..FirstFailing(accounts, failing)] == accounts;
    SweepIgnoresUnusedFailures(isWindows, dataPath, uids, options, now, md5, failing, accounts, start);
  }

  /** Failures of accounts that are not in the list do not matter. */
  lemma {:induction false} SweepIgnoresUnusedFailures(isWindows: bool, dataPath: Path, uids: OrderedMap<string, string>,
                                                      options: CleanOptions, now: int, md5: string -> string,
                                                      failing: set<string>, accounts: seq<string>, start: Sweep)
    requires start.hashDirs.Valid()
    requires forall a :: a in accounts ==> a !in failing
    ensures SweepAccounts(isWindows, dataPath, uids, options, now, md5, failing, accounts, start)
         == SweepAccounts(isWindows, dataPath, uids, options, now, md5, {}, accounts, start)
  {
    if accounts != [] {
      var init := accounts[..|accounts| - 1];
      assert forall a :: a in init ==> a in accounts;
      assert accounts[|accounts| - 1] in accounts;
      SweepIgnoresUnusedFailures(isWindows, dataPath, uids, options, now, md5, failing, init, start);
    }
  }

  /** When every account throws, a scheduled run deletes nothing and totals zero. */
  lemma {:induction false} AllFailingCleansNothing(isWindows: bool, dataPath: Path, uids: OrderedMap<string, string>,
                                                   options: CleanOptions, now: int, md5: string -> string,
                                                   failing: set<string>, accounts: seq<string>, start: Sweep)
    requires start.hashDirs.Valid()
    requires forall a :: a in accounts ==> a in failing
    ensures SweepAccounts(isWindows, dataPath, uids, options, now, md5, failing, accounts, start) == start
  {
    if accounts != [] {
      var init := accounts[..|accounts| - 1];
      assert forall a :: a in init ==> a in accounts;
      assert accounts[|accounts| - 1] in accounts;
      AllFailingCleansNothing(isWindows, dataPath, uids, options, now, md5, failing, init, start);
    }
  }

  // ---------------------------------------------------------------------------
  // Creating, updating and deleting tasks

  /** The body of a create request: every field optional, plus a separate `retainDays`. */
  datatype TaskDraft = TaskDraft(
    name: Option<string>,
    accounts: Option<seq<string>>,
    options: Option<PartialOptions>,
    cronHour: Option<int>,
    cronMinute: Option<int>,
    frequency: Option<Frequency>,
    frequencyValue: Option<int>,
    enabled: Option<bool>,
    retainDays: Option<int>)

  const EmptyDraft: TaskDraft := TaskDraft(None, None, None, None, None, None, None, None, None)

  /** The task `createScheduleTask` builds from a draft, the default options and a fresh id. */
  function NewTask(d: TaskDraft, defaults: CleanOptions, id: string): ScheduleTask {
    var merged := Merge(defaults, d.options.GetOr(NoOptions));
    var options := if d.retainDays.Some? then merged.(retainDays := d.retainDays.value) else merged;
    ScheduleTask(
      id,
      if d.name.None? || d.name.value == "" then "新任务" else d.name.value,
      d.accounts.GetOr([]),
      options,
      d.cronHour.GetOr(3),
      d.cronMinute.GetOr(0),
      Some(d.frequency.GetOr(Daily)),
      Some(d.frequencyValue.GetOr(0)),
      d.enabled.GetOr(true),
      None,
      None)
  }

  /**
   * An empty draft gives an enabled daily task at 03:00 named "新任务" that
   * cleans every account with the default options and has never run.
   */
  lemma EmptyDraftDefaults(defaults: CleanOptions, id: string)
    ensures NewTask(EmptyDraft, defaults, id)
         == ScheduleTask(id, "新任务", [], defaults, 3, 0, Some(Daily), Some(0), true, None, None)
  {
    MergeIdentityAndIdempotent(defaults, NoOptions);
  }

  /**
   * The options of a new task: a flag given in the draft wins over the
   * default, and a separate `retainDays` wins over both.
   */
  lemma NewTaskOptions(d: TaskDraft, defaults: CleanOptions, id: string)
    ensures var o := NewTask(d, defaults, id).options;
      var p := d.options.GetOr(NoOptions);
      && (forall c :: o.Enabled(c) == p.Flag(c).GetOr(defaults.Enabled(c)))
      && o.retainDays == d.retainDays.GetOr(p.retainDays.GetOr(defaults.retainDays))
  {
    var p := d.options.GetOr(NoOptions);
    MergeTakesPresentFields(defaults, p);
    RetainDaysLeavesFlags(Merge(defaults, p), d.retainDays.GetOr(0));
  }


  /** `createScheduleTask(body)`; `freshId` stands for `generateId()`. */
  method CreateScheduleTask(st: PluginState, d: TaskDraft, freshId: string, now: int) returns (t: ScheduleTask)
    requires forall x :: x in st.config.scheduleTasks ==> x.id != freshId
    modifies st
    ensures t == NewTask(d, old(st.config.defaultOptions), freshId)
    ensures st.config == old(st.config).(scheduleTasks := old(st.config.scheduleTasks) + [t])
    ensures st.saved == Some(st.config)
    ensures st.scheduleTimers == Armed(old(st.scheduleTimers), t, now)
    ensures KeepsAccountsAndLog(st) && st.uinToHashDir == old(st.uinToHashDir)
  {
    t := NewTask(d, st.config.defaultOptions, freshId);
    st.config := st.config.(scheduleTasks := st.config.scheduleTasks + [t]);
    st.SaveConfig();
    SetupScheduleTask(st, t, now);
  }

  /** A created task is appended last and is the one its id finds. */
  lemma CreatedTaskIsFound(tasks: seq<ScheduleTask>, t: ScheduleTask)
    requires forall x :: x in tasks ==> x.id != t.id
    ensures FindTask(tasks + [t], t.id) == Some(|tasks|)
    ensures DistinctIds(tasks) ==> DistinctIds(tasks + [t])
  {
    var r := FindTask(tasks + [t], t.id);
    assert (tasks + [t])[|tasks|].id == t.id;
    if DistinctIds(tasks) {
      forall i, j | 0 <= i < j < |tasks| + 1 ensures (tasks + [t])[i].id != (tasks + [t])[j].id {
        if j == |tasks| {
          assert tasks[i] in tasks;
        }
      }
    }
  }

  /** The body of an update request: the fields present replace the stored ones (`Object.assign`). */
  datatype TaskPatch = TaskPatch(
    id: Option<string>,
    name: Option<string>,
    accounts: Option<seq<string>>,
    options: Option<CleanOptions>,
    cronHour: Option<int>,
    cronMinute: Option<int>,
    frequency: Option<Frequency>,
    frequencyValue: Option<int>,
    enabled: Option<bool>,
    lastRun: Option<int>,
    lastResult: Option<RunSummary>)

  /** `Object.assign(task, body)`. */
  function Assign(t: ScheduleTask, p: TaskPatch): ScheduleTask {
    ScheduleTask(
      p.id.GetOr(t.id),
      p.name.GetOr(t.name),
      p.accounts.GetOr(t.accounts),
      p.options.GetOr(t.options),
      p.cronHour.GetOr(t.cronHour),
      p.cronMinute.GetOr(t.cronMinute),
      if p.frequency.Some? then p.frequency else t.frequency,
      if p.frequencyValue.Some? then p.frequencyValue else t.frequencyValue,
      p.enabled.GetOr(t.enabled),
      if p.lastRun.Some? then p.lastRun else t.lastRun,
      if p.lastResult.Some? then p.lastResult else t.lastResult)
  }

  /** `updateScheduleTask(id, body)`: `None` (the source's `null`) for an unknown id. */
  method UpdateScheduleTask(st: PluginState, id: string, p: TaskPatch, now: int) returns (r: Option<ScheduleTask>)
    modifies st
    ensures FindTask(old(st.config.scheduleTasks), id).None? <==> r.None?
    ensures r.None? ==> st.config == old(st.config) && st.saved == old(st.saved)
                        && st.scheduleTimers == old(st.scheduleTimers)
    ensures r.Some? ==>
      var i := FindTask(old(st.config.scheduleTasks), id).value;
      && r.value == Assign(old(st.config.scheduleTasks[i]), p)
      && st.config == old(st.config).(scheduleTasks := old(st.config.scheduleTasks)[i := r.value])
      && st.saved == Some(st.config)
      && st.scheduleTimers == Armed(old(st.scheduleTimers), r.value, now)
    ensures KeepsAccountsAndLog(st) && st.uinToHashDir == old(st.uinToHashDir)
  {
    var found := FindTask(st.config.scheduleTasks, id);
    if found.None? {
      return None;
    }
    var t := Assign(st.config.scheduleTasks[found.value], p);
    st.config := st.config.(scheduleTasks := st.config.scheduleTasks[found.value := t]);
    st.SaveConfig();
    SetupScheduleTask(st, t, now);
    return Some(t);
  }

  /**
   * An update may give a task the id of another one. Then two stored tasks
   * share the id, the later one can no longer be found by it, and the timer
   * under its former id stays armed.
   */
  lemma UpdateCanDuplicateIds(a: ScheduleTask, b: ScheduleTask, timer: Timer, now: int)
    requires a.id == "a" && b.id == "b"
    ensures var tasks := [a, b][1 := Assign(b, TaskPatch(Some("a"), None, None, None, None, None, None, None, None, None, None))];
      && !DistinctIds(tasks)
      && FindTask(tasks, "a") == Some(0)
      && "b" in Armed(map["b" := timer], tasks[1], now)
  {
    var tasks := [a, b][1 := Assign(b, TaskPatch(Some("a"), None, None, None, None, None, None, None, None, None, None))];
    assert tasks[0].id == tasks[1].id;
  }

  /** `deleteScheduleTask(id)`: `false` for an unknown id. */
  method DeleteScheduleTask(st: PluginState, id: string) returns (deleted: bool)
    modifies st
    ensures FindTask(old(st.config.scheduleTasks), id).Some? <==> deleted
    ensures !deleted ==> st.config == old(st.config) && st.saved == old(st.saved)
                         && st.scheduleTimers == old(st.scheduleTimers)
    ensures deleted ==>
      var i := FindTask(old(st.config.scheduleTasks), id).value;
      && st.config == old(st.config).(scheduleTasks := old(st.config.scheduleTasks)[..i] + old(st.config.scheduleTasks)[i + 1..])
      && st.saved == Some(st.config)
      && st.scheduleTimers == old(st.scheduleTimers) - {id}
    ensures KeepsAccountsAndLog(st) && st.uinToHashDir == old(st.uinToHashDir)
  {
    var found := FindTask(st.config.scheduleTasks, id);
    if found.None? {
      return false;
    }
    ClearScheduleTimer(st, id);
    var i := found.value;
    st.config := st.config.(scheduleTasks := st.config.scheduleTasks[..i] + st.config.scheduleTasks[i + 1..]);
    st.SaveConfig();
    return true;
  }

  /**
   * With distinct ids, deleting a task removes exactly that task: its id is
   * no longer found, every other task keeps its relative order and is still
   * found by its id.
   */
  lemma DeleteRemovesOnlyThatTask(tasks: seq<ScheduleTask>, id: string, other: string)
    requires DistinctIds(tasks) && FindTask(tasks, id).Some? && other != id
    ensures var i := FindTask(tasks, id).value;
      var rest := tasks[..i] + tasks[i + 1..];
      && |rest| == |tasks| - 1
      && FindTask(rest, id).None?
      && (FindTask(rest, other).Some? <==> FindTask(tasks, other).Some?)
      && (FindTask(rest, other).Some? ==> rest[FindTask(rest, other).value] == tasks[FindTask(tasks, other).value])
      && DistinctIds(rest)
  {
    var i := FindTask(tasks, id).value;
    RemoveAtKeepsDistinct(tasks, i);
    RemoveAtFindsOther(tasks, i, other);
  }

  /** Removing one task of a list with distinct ids leaves distinct ids, none of them the removed one. */
  lemma RemoveAtKeepsDistinct(tasks: seq<ScheduleTask>, i: nat)
    requires DistinctIds(tasks) && i < |tasks|
    ensures var rest := tasks[..i] + tasks[i + 1..];
      && |rest| == |tasks| - 1
      && DistinctIds(rest)
      && FindTask(rest, tasks[i].id).None?
  {
    var rest := tasks[..i] + tasks[i + 1..];
    assert forall j :: 0 <= j < |rest| ==> rest[j] == (if j < i then tasks[j] else tasks[j + 1]);
  }

  /** Removing one task does not change which task another id finds. */
  lemma RemoveAtFindsOther(tasks: seq<ScheduleTask>, i: nat, other: string)
    requires DistinctIds(tasks) && i < |tasks| && tasks[i].id != other
    ensures var rest := tasks[..i] + tasks[i + 1..];
      && (FindTask(rest, other).Some? <==> FindTask(tasks, other).Some?)
      && (FindTask(rest, other).Some? ==> rest[FindTask(rest, other).value] == tasks[FindTask(tasks, other).value])
  {
    var rest := tasks[..i] + tasks[i + 1..];
    assert forall j :: 0 <= j < |rest| ==> rest[j] == (if j < i then tasks[j] else tasks[j + 1]);
    var g := FindTask(tasks, other);
    if g.Some? {
      var j := g.value;
      assert rest[if j < i then j else j - 1] == tasks[j];
    }
    var f := FindTask(rest, other);
    if f.Some? {
      var j := f.value;
      assert rest[j] == tasks[if j < i then j else j + 1];
    }
  }
}
