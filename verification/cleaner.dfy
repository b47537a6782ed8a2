/**
 * `scanCache` and `executeClean` of `src/services/cleaner-service.ts`: walk
 * every directory of every category of one account, reporting per-category
 * and total counts; the clean skips disabled categories and deletes through
 * `cleanDirectory`.
 */
module Cleaner {
  import opened Wrappers
  import opened FileTree
  import opened Types
  import opened Time
  import opened State
  import opened NtPaths
  import opened DirectoryWalkers

  /** The statistics of `dirs`, one walk each, summed. */
  function SumStats(root: Node, dirs: seq<Path>, now: int, retainMs: int): Counts {
    if dirs == [] then Zero
    else SumStats(root, dirs[..|dirs| - 1], now, retainMs).Plus(StatsAt(root, dirs[|dirs| - 1], now, retainMs))
  }

  /** The per-category statistics `scanCache` accumulates for each category. */
  function ScanOf(root: Node, paths: CleanablePaths, now: int, retainMs: int): Category -> Counts {
    c => SumStats(root, paths.Of(c), now, retainMs)
  }

  /** The statistics walks of one category's directories. */
  method ScanDirs(disk: Disk, dirs: seq<Path>, now: int, retainMs: int) returns (c: Counts)
    ensures c == SumStats(disk.root, dirs, now, retainMs)
  {
    c := Zero;
    var i := 0;
    while i < |dirs|
      invariant 0 <= i <= |dirs|
      invariant c == SumStats(disk.root, dirs[..i], now, retainMs)
    {
      assert dirs[..i + 1][..i] == dirs[..i];
      var d := GetDirStatsWithFilter(disk, dirs[i], now, retainMs);
      c := c.Plus(d);
      i := i + 1;
    }
    assert dirs[..|dirs|] == dirs;
  }

  /** The walk of `scanCache` over a path record: reads the disk only. */
  method ScanPaths(disk: Disk, paths: CleanablePaths, now: int, retainMs: int) returns (stats: CleanStats)
    ensures stats.categories == Fill(ScanOf(disk.root, paths, now, retainMs), AllCategories)
    ensures Consistent(stats)
  {
    var cats := ZeroBreakdown;
    var total := Zero;
    var k := 0;
    while k < |AllCategories|
      invariant 0 <= k <= |AllCategories|
      invariant cats == Fill(ScanOf(disk.root, paths, now, retainMs), AllCategories[..k])
      invariant total == SumCategories(cats, AllCategories[..k])
    {
      var cat := AllCategories[k];
      var d := ScanDirs(disk, paths.Of(cat), now, retainMs);
      FillStep(ScanOf(disk.root, paths, now, retainMs), k, cats, total);
      cats := cats.Add(cat, d);
      total := total.Plus(d);
      k := k + 1;
    }
    assert AllCategories[..k] == AllCategories;
    stats := CleanStats(total.files, total.size, cats);
  }

  /** `scanCache` reports, for every category, the summed statistics of that category's directories. */
  lemma ScanReportsEveryCategory(root: Node, paths: CleanablePaths, now: int, retainMs: int, c: Category)
    ensures Fill(ScanOf(root, paths, now, retainMs), AllCategories).Get(c) == SumStats(root, paths.Of(c), now, retainMs)
  {
    AllCategoriesListsEachOnce();
    FillReports(ScanOf(root, paths, now, retainMs), AllCategories, c);
  }

  // ---------------------------------------------------------------------------
  // Cleaning

  /** Cleaning `dirs` one after another, each on what the previous ones left. */
  function CleanDirs(root: Node, dirs: seq<Path>, now: int, retainMs: int): DiskClean {
    if dirs == [] then DiskClean(root, Zero)
    else
      var r := CleanDirs(root, dirs[..|dirs| - 1], now, retainMs);
      var s := CleanAt(r.root, dirs[|dirs| - 1], now, retainMs);
      DiskClean(s.root, r.counts.Plus(s.counts))
  }

  /** The disk after a clean and the breakdown it reports. */
  datatype CleanRun = CleanRun(root: Node, categories: Breakdown)

  /** The category loop of `executeClean` over `cats`, in order, skipping disabled ones. */
  function CleanCategories(root: Node, paths: CleanablePaths, options: CleanOptions, now: int,
                           cats: seq<Category>): CleanRun
  {
    if cats == [] then CleanRun(root, ZeroBreakdown)
    else
      var r := CleanCategories(root, paths, options, now, cats[..|cats| - 1]);
      var c := cats[|cats| - 1];
      if !options.Enabled(c) then r
      else
        var d := CleanDirs(r.root, paths.Of(c), now, options.retainDays * DAY);
        CleanRun(d.root, r.categories.Add(c, d.counts))
  }

  /** The `cleanDirectory` calls for one category's directories. */
  method CleanDirsInPlace(disk: Disk, dirs: seq<Path>, retainDays: int, now: int) returns (c: Counts)
    modifies disk
    ensures DiskClean(disk.root, c) == CleanDirs(old(disk.root), dirs, now, retainDays * DAY)
  {
    c := Zero;
    var i := 0;
    while i < |dirs|
      invariant 0 <= i <= |dirs|
      invariant DiskClean(disk.root, c) == CleanDirs(old(disk.root), dirs[..i], now, retainDays * DAY)
    {
      assert dirs[..i + 1][..i] == dirs[..i];
      var d := CleanDirectory(disk, dirs[i], retainDays, now);
      c := c.Plus(d);
      i := i + 1;
    }
    assert dirs[..|dirs|] == dirs;
  }

  /** One step of the category loop of `executeClean`: a disabled category is skipped, an enabled one is cleaned and counted. */
  lemma CleanStep(root: Node, paths: CleanablePaths, options: CleanOptions, now: int, k: nat, run: CleanRun, total: Counts)
    requires k < |AllCategories|
    requires run == CleanCategories(root, paths, options, now, AllCategories[..k])
    requires total == SumCategories(run.categories, AllCategories[..k])
    ensures var cat := AllCategories[k];
      var d := CleanDirs(run.root, paths.Of(cat), now, options.retainDays * DAY);
      var next := CleanCategories(root, paths, options, now, AllCategories[..k + 1]);
      if options.Enabled(cat) then
        && next == CleanRun(d.root, run.categories.Add(cat, d.counts))
        && total.Plus(d.counts) == SumCategories(next.categories, AllCategories[..k + 1])
      else
        && next == run
        && total == SumCategories(run.categories, AllCategories[..k + 1])
  {
    assert AllCategories[..k + 1] == AllCategories[..k] + [AllCategories[k]];
    CategoryNotBefore(k);
    CleanCategoriesSnoc(root, paths, options, now, AllCategories[..k], AllCategories[k], run, total);
  }

  /** `CleanStep` for any list of categories that does not yet hold `cat`. */
  lemma CleanCategoriesSnoc(root: Node, paths: CleanablePaths, options: CleanOptions, now: int,
                            cats: seq<Category>, cat: Category, run: CleanRun, total: Counts)
    requires cat !in cats
    requires run == CleanCategories(root, paths, options, now, cats)
    requires total == SumCategories(run.categories, cats)
    ensures var d := CleanDirs(run.root, paths.Of(cat), now, options.retainDays * DAY);
      var next := CleanCategories(root, paths, options, now, cats + [cat]);
      if options.Enabled(cat) then
        && next == CleanRun(d.root, run.categories.Add(cat, d.counts))
        && total.Plus(d.counts) == SumCategories(next.categories, cats + [cat])
      else
        && next == run
        && total == SumCategories(run.categories, cats + [cat])
  {
    assert (cats + [cat])[..|cats|] == cats;
    CategoryUntouched(root, paths, options, now, cats, cat);
    if options.Enabled(cat) {
      var d := CleanDirs(run.root, paths.Of(cat), now, options.retainDays * DAY);
      SumAfterAdd(run.categories, cats, cat, d.counts);
    }
  }

  /** The walk of `executeClean` over a path record: deletes on the disk. */
  method CleanPaths(disk: Disk, paths: CleanablePaths, options: CleanOptions, now: int) returns (stats: CleanStats)
    modifies disk
    ensures CleanRun(disk.root, stats.categories) == CleanCategories(old(disk.root), paths, options, now, AllCategories)
    ensures Consistent(stats)
  {
    var cats := ZeroBreakdown;
    var total := Zero;
    var k := 0;
    while k < |AllCategories|
      invariant 0 <= k <= |AllCategories|
      invariant CleanRun(disk.root, cats) == CleanCategories(old(disk.root), paths, options, now, AllCategories[..k])
      invariant total == SumCategories(cats, AllCategories[..k])
    {
      var cat := AllCategories[k];
      CleanStep(old(disk.root), paths, options, now, k, CleanRun(disk.root, cats), total);
      if options.Enabled(cat) {
        var d := CleanDirsInPlace(disk, paths.Of(cat), options.retainDays, now);
        cats := cats.Add(cat, d);
        total := total.Plus(d);
      }
      k := k + 1;
    }
    assert AllCategories[..k] == AllCategories;
    stats := CleanStats(total.files, total.size, cats);
  }

  /** `scanCache(dataPath, uin, retainDays)`. */
  method ScanCache(st: PluginState, disk: Disk, dataPath: Path, uin: string, retainDays: int, now: int,
                   md5: string -> string) returns (stats: CleanStats)
    requires st.Valid()
    modifies st
    ensures st.Valid()
    ensures var res := ResolveNtData(st.isWindows, disk.root, dataPath, uin, st.uinToUid, old(st.uinToHashDir), md5);
      var paths := CategoryPaths(disk.root, dataPath, res.ntData, NtTempPath(st.isWindows, disk.root, res.hashDirs, uin));
      && st.uinToHashDir == res.hashDirs
      && stats.categories == Fill(ScanOf(disk.root, paths, now, retainDays * DAY), AllCategories)
    ensures Consistent(stats)
    ensures st.uinToUid == old(st.uinToUid) && st.config == old(st.config) && st.dataPath == old(st.dataPath)
    ensures st.scheduleTimers == old(st.scheduleTimers) && st.currentUid == old(st.currentUid)
    ensures st.logged == old(st.logged) && st.hasLogger == old(st.hasLogger) && st.saved == old(st.saved)
  {
    var paths := GetCleanablePaths(st, disk, dataPath, uin, md5);
    stats := ScanPaths(disk, paths, now, retainDays * DAY);
  }

  /** `executeClean(dataPath, uin, options)`. */
  method ExecuteClean(st: PluginState, disk: Disk, dataPath: Path, uin: string, options: CleanOptions, now: int,
                      md5: string -> string) returns (stats: CleanStats)
    requires st.Valid()
    modifies st, disk
    ensures st.Valid()
    ensures var res := ResolveNtData(st.isWindows, old(disk.root), dataPath, uin, st.uinToUid, old(st.uinToHashDir), md5);
      var paths := CategoryPaths(old(disk.root), dataPath, res.ntData, NtTempPath(st.isWindows, old(disk.root), res.hashDirs, uin));
      && st.uinToHashDir == res.hashDirs
      && CleanRun(disk.root, stats.categories) == CleanCategories(old(disk.root), paths, options, now, AllCategories)
    ensures Consistent(stats)
    ensures st.uinToUid == old(st.uinToUid) && st.config == old(st.config) && st.dataPath == old(st.dataPath)
    ensures st.scheduleTimers == old(st.scheduleTimers) && st.currentUid == old(st.currentUid)
    ensures st.logged == old(st.logged) && st.hasLogger == old(st.hasLogger) && st.saved == old(st.saved)
  {
    var paths := GetCleanablePaths(st, disk, dataPath, uin, md5);
    stats := CleanPaths(disk, paths, options, now);
  }

  // ---------------------------------------------------------------------------
  // What a clean promises

  /** A category that is disabled, or not yet reached, reports zero files and zero bytes. */
  lemma {:induction false} CategoryUntouched(root: Node, paths: CleanablePaths, options: CleanOptions, now: int,
                                             cats: seq<Category>, c: Category)
    requires !options.Enabled(c) || c !in cats
    ensures CleanCategories(root, paths, options, now, cats).categories.Get(c) == Zero
  {
    if cats != [] {
      var init, l := cats[..|cats| - 1], cats[|cats| - 1];
      assert c != l || !options.Enabled(c);
      CategoryUntouched(root, paths, options, now, init, c);
      if options.Enabled(l) {
        var r := CleanCategories(root, paths, options, now, init);
        AddChangesOneEntry(r.categories, l, CleanDirs(r.root, paths.Of(l), now, options.retainDays * DAY).counts);
      }
    }
  }

  /** A directory sequence cleaned one by one leaves alone every path unrelated to all of them. */
  lemma {:induction false} CleanDirsLeavesOthers(root: Node, dirs: seq<Path>, now: int, retainMs: int, q: Path)
    requires forall d :: d in dirs ==> !(d <= q) && !(q <= d)
    ensures Lookup(CleanDirs(root, dirs, now, retainMs).root, q) == Lookup(root, q)
  {
    if dirs != [] {
      var init, l := dirs[..|dirs| - 1], dirs[|dirs| - 1];
      assert forall d :: d in init ==> d in dirs;
      assert l in dirs;
      CleanDirsLeavesOthers(root, init, now, retainMs, q);
      CleanAtEffect(CleanDirs(root, init, now, retainMs).root, l, now, retainMs, q);
    }
  }

  /**
   * A clean changes nothing at a path unrelated to every directory of every
   * enabled category: disabled categories are never walked.
   */
  lemma {:induction false} CleanTouchesOnlyEnabledDirs(root: Node, paths: CleanablePaths, options: CleanOptions, now: int,
                                                       cats: seq<Category>, q: Path)
    requires forall c, d :: options.Enabled(c) && d in paths.Of(c) ==> !(d <= q) && !(q <= d)
    ensures Lookup(CleanCategories(root, paths, options, now, cats).root, q) == Lookup(root, q)
  {
    if cats != [] {
      var c := cats[|cats| - 1];
      var r := CleanCategories(root, paths, options, now, cats[..|cats| - 1]);
      CleanTouchesOnlyEnabledDirs(root, paths, options, now, cats[..|cats| - 1], q);
      if options.Enabled(c) {
        CleanDirsLeavesOthers(r.root, paths.Of(c), now, options.retainDays * DAY, q);
      }
    }
  }

  /** With every category disabled a clean deletes nothing and reports zero everywhere. */
  lemma AllDisabledCleansNothing(root: Node, paths: CleanablePaths, options: CleanOptions, now: int)
    requires forall c :: !options.Enabled(c)
    ensures CleanCategories(root, paths, options, now, AllCategories) == CleanRun(root, ZeroBreakdown)
  {
    var run := CleanCategories(root, paths, options, now, AllCategories);
    CleanTouchesOnlyEnabledDirs(root, paths, options, now, AllCategories, []);
    forall c ensures run.categories.Get(c) == Zero {
      CategoryUntouched(root, paths, options, now, AllCategories, c);
    }
    assert run.categories.Get(Video) == Zero && run.categories.Get(VideoThumb) == Zero;
    assert run.categories.Get(Ptt) == Zero && run.categories.Get(Pic) == Zero;
    assert run.categories.Get(File) == Zero && run.categories.Get(Log) == Zero;
    assert run.categories.Get(LogCache) == Zero && run.categories.Get(NtTemp) == Zero;
    assert run.categories.Get(NapCatData) == Zero && run.categories.Get(NapCatTemp) == Zero;
  }

  /**
   * Cleaning one account changes nothing outside its `nt_data`, its
   * `nt_temp` and the NapCat directory: a path unrelated to those three is
   * left as it was.
   */
  lemma CleanStaysInsideAccount(root: Node, dataPath: Path, nd: Path, ntTemp: Option<Path>,
                                options: CleanOptions, now: int, q: Path)
    requires !(nd <= q) && !(q <= nd)
    requires !(NapCatPath(dataPath) <= q) && !(q <= NapCatPath(dataPath))
    requires ntTemp.Some? ==> !(ntTemp.value <= q) && !(q <= ntTemp.value)
    ensures Lookup(CleanCategories(root, CategoryPaths(root, dataPath, Some(nd), ntTemp), options, now, AllCategories).root, q)
         == Lookup(root, q)
  {
    var paths := CategoryPaths(root, dataPath, Some(nd), ntTemp);
    forall c, d | options.Enabled(c) && d in paths.Of(c) ensures !(d <= q) && !(q <= d) {
      PathsStayInside(root, dataPath, nd, ntTemp, c, d);
      var top := if c == NapCatData || c == NapCatTemp then NapCatPath(dataPath) else if c == NtTemp then d else nd;
      PrefixTransitive(top, d, q);
      PrefixesComparable(q, top, d);
    }
    CleanTouchesOnlyEnabledDirs(root, paths, options, now, AllCategories, q);
  }

  /** A clean of several directories leaves every file the keep rule admits where it was. */
  lemma {:induction false} CleanDirsKeepsFile(root: Node, dirs: seq<Path>, now: int, retainMs: int, p: Path)
    requires KeptFileAt(root, p, now, retainMs)
    ensures Lookup(CleanDirs(root, dirs, now, retainMs).root, p) == Lookup(root, p)
  {
    if dirs != [] {
      var init, l := dirs[..|dirs| - 1], dirs[|dirs| - 1];
      CleanDirsKeepsFile(root, init, now, retainMs, p);
      CleanKeepsFileAt(CleanDirs(root, init, now, retainMs).root, l, now, retainMs, p);
    }
  }

  /**
   * A clean never removes a file inside the retention window, nor an aged
   * file whose unlink throws: whichever directories the categories list,
   * nested or overlapping, such a file is still at its path, unchanged.
   */
  lemma {:induction false} CleanKeepsYoungFiles(root: Node, paths: CleanablePaths, options: CleanOptions, now: int,
                                                cats: seq<Category>, p: Path)
    requires KeptFileAt(root, p, now, options.retainDays * DAY)
    ensures Lookup(CleanCategories(root, paths, options, now, cats).root, p) == Lookup(root, p)
  {
    if cats != [] {
      var c := cats[|cats| - 1];
      var r := CleanCategories(root, paths, options, now, cats[..|cats| - 1]);
      CleanKeepsYoungFiles(root, paths, options, now, cats[..|cats| - 1], p);
      if options.Enabled(c) {
        CleanDirsKeepsFile(r.root, paths.Of(c), now, options.retainDays * DAY, p);
      }
    }
  }

  /** After cleaning `dirs`, each of them is settled, and so is every path that was settled before. */
  lemma {:induction false} CleanDirsSettles(root: Node, dirs: seq<Path>, now: int, retainMs: int, q: Path)
    requires SettledAt(root, q, now, retainMs) || q in dirs
    ensures SettledAt(CleanDirs(root, dirs, now, retainMs).root, q, now, retainMs)
  {
    if dirs != [] {
      var init, l := dirs[..|dirs| - 1], dirs[|dirs| - 1];
      var r := CleanDirs(root, init, now, retainMs).root;
      if q == l {
        CleanSettles(r, l, now, retainMs);
      } else {
        assert q in dirs ==> q in init;
        CleanDirsSettles(root, init, now, retainMs, q);
        CleanKeepsSettled(r, l, now, retainMs, q);
      }
    }
  }

  /** Cleaning settled directories changes nothing and unlinks nothing. */
  lemma {:induction false} CleanDirsSettledIsNoop(root: Node, dirs: seq<Path>, now: int, retainMs: int)
    requires forall d :: d in dirs ==> SettledAt(root, d, now, retainMs)
    ensures CleanDirs(root, dirs, now, retainMs).root == root
    ensures CleanDirs(root, dirs, now, retainMs).counts.files == 0
  {
    if dirs != [] {
      var init, l := dirs[..|dirs| - 1], dirs[|dirs| - 1];
      assert forall d :: d in init ==> d in dirs;
      assert l in dirs;
      CleanDirsSettledIsNoop(root, init, now, retainMs);
      CleanSettledIsNoop(root, l, now, retainMs);
    }
  }

  /** After a clean, every directory of every enabled category in `cats` is settled, and so is every path that was. */
  lemma {:induction false} CleanCategoriesSettles(root: Node, paths: CleanablePaths, options: CleanOptions, now: int,
                                                  cats: seq<Category>, c: Category, q: Path)
    requires SettledAt(root, q, now, options.retainDays * DAY) || (c in cats && options.Enabled(c) && q in paths.Of(c))
    ensures SettledAt(CleanCategories(root, paths, options, now, cats).root, q, now, options.retainDays * DAY)
  {
    if cats != [] {
      var init, l := cats[..|cats| - 1], cats[|cats| - 1];
      var r := CleanCategories(root, paths, options, now, init);
      if options.Enabled(l) && c == l && q in paths.Of(l) {
        CleanDirsSettles(r.root, paths.Of(l), now, options.retainDays * DAY, q);
      } else {
        assert c in cats && c != l ==> c in init;
        CleanCategoriesSettles(root, paths, options, now, init, c, q);
        if options.Enabled(l) {
          CleanDirsSettles(r.root, paths.Of(l), now, options.retainDays * DAY, q);
        }
      }
    }
  }

  /** A clean whose directories are all settled changes nothing and reports no unlinked file in category `c`. */
  lemma {:induction false} CleanCategoriesSettledIsNoop(root: Node, paths: CleanablePaths, options: CleanOptions, now: int,
                                                        cats: seq<Category>, c: Category)
    requires forall x, d :: options.Enabled(x) && d in paths.Of(x) ==> SettledAt(root, d, now, options.retainDays * DAY)
    ensures CleanCategories(root, paths, options, now, cats).root == root
    ensures CleanCategories(root, paths, options, now, cats).categories.Get(c).files == 0
  {
    if cats != [] {
      var init, l := cats[..|cats| - 1], cats[|cats| - 1];
      var r := CleanCategories(root, paths, options, now, init);
      CleanCategoriesSettledIsNoop(root, paths, options, now, init, c);
      if options.Enabled(l) {
        var d := CleanDirs(root, paths.Of(l), now, options.retainDays * DAY);
        CleanDirsSettledIsNoop(root, paths.Of(l), now, options.retainDays * DAY);
        AddChangesOneEntry(r.categories, l, d.counts);
      }
    }
  }

  /** A breakdown with no file in any category sums to no file. */
  lemma {:induction false} NoFilesSumToNone(b: Breakdown, cats: seq<Category>)
    requires forall c :: b.Get(c).files == 0
    ensures SumCategories(b, cats).files == 0
  {
    if cats != [] {
      NoFilesSumToNone(b, cats[..|cats| - 1]);
    }
  }

  /**
   * With the clock fixed, a second clean over the same directories deletes
   * nothing: the disk stays as the first clean left it, and no category and
   * no total reports an unlinked file.
   */
  lemma SecondCleanIsNoop(root: Node, paths: CleanablePaths, options: CleanOptions, now: int)
    ensures var first := CleanCategories(root, paths, options, now, AllCategories);
      var second := CleanCategories(first.root, paths, options, now, AllCategories);
      && second.root == first.root
      && (forall c :: second.categories.Get(c).files == 0)
      && SumCategories(second.categories, AllCategories).files == 0
  {
    var first := CleanCategories(root, paths, options, now, AllCategories);
    var second := CleanCategories(first.root, paths, options, now, AllCategories);
    AllCategoriesListsEachOnce();
    forall c, d | options.Enabled(c) && d in paths.Of(c)
      ensures SettledAt(first.root, d, now, options.retainDays * DAY)
    {
      CleanCategoriesSettles(root, paths, options, now, AllCategories, c, d);
    }
    forall c ensures second.categories.Get(c).files == 0 {
      CleanCategoriesSettledIsNoop(first.root, paths, options, now, AllCategories, c);
    }
    CleanCategoriesSettledIsNoop(first.root, paths, options, now, AllCategories, Video);
    NoFilesSumToNone(second.categories, AllCategories);
  }
}
