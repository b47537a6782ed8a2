/**
 * The records the cleaner and the scheduler exchange: clean options, scheduled
 * tasks, statistics and the per-category path lists, and the default options.
 */
module Types {
  import opened Wrappers
  import opened FileTree

  /** The ten cache categories, in the order the path record lists them. */
  datatype Category =
    | Video | VideoThumb | Ptt | Pic | File | Log | LogCache | NtTemp | NapCatData | NapCatTemp

  const AllCategories: seq<Category> :=
    [Video, VideoThumb, Ptt, Pic, File, Log, LogCache, NtTemp, NapCatData, NapCatTemp]

  /** Every category occurs in `AllCategories`, exactly once. */
  lemma AllCategoriesListsEachOnce()
    ensures |AllCategories| == 10
    ensures forall c :: c in AllCategories
    ensures forall i, j :: 0 <= i < j < |AllCategories| ==> AllCategories[i] != AllCategories[j]
  {
    forall c ensures c in AllCategories {
      var i := match c
        case Video => 0 case VideoThumb => 1 case Ptt => 2 case Pic => 3 case File => 4
        case Log => 5 case LogCache => 6 case NtTemp => 7 case NapCatData => 8 case NapCatTemp => 9;
      assert AllCategories[i] == c;
    }
  }

  /** One enable flag per category and the retention period in days. */
  datatype CleanOptions = CleanOptions(
    enableVideo: bool,
    enableVideoThumb: bool,
    enablePtt: bool,
    enablePic: bool,
    enableFile: bool,
    enableLog: bool,
    enableLogCache: bool,
    enableNtTemp: bool,
    enableNapCatData: bool,
    enableNapCatTemp: bool,
    retainDays: int)
  {
    /** The flag that guards category `c`. */
    function Enabled(c: Category): bool {
      match c
      case Video => enableVideo
      case VideoThumb => enableVideoThumb
      case Ptt => enablePtt
      case Pic => enablePic
      case File => enableFile
      case Log => enableLog
      case LogCache => enableLogCache
      case NtTemp => enableNtTemp
      case NapCatData => enableNapCatData
      case NapCatTemp => enableNapCatTemp
    }
  }

  /** `Partial<CleanOptions>`: a field is `None` when the object does not have it. */
  datatype PartialOptions = PartialOptions(
    enableVideo: Option<bool>,
    enableVideoThumb: Option<bool>,
    enablePtt: Option<bool>,
    enablePic: Option<bool>,
    enableFile: Option<bool>,
    enableLog: Option<bool>,
    enableLogCache: Option<bool>,
    enableNtTemp: Option<bool>,
    enableNapCatData: Option<bool>,
    enableNapCatTemp: Option<bool>,
    retainDays: Option<int>)
  {
    function Flag(c: Category): Option<bool> {
      match c
      case Video => enableVideo
      case VideoThumb => enableVideoThumb
      case Ptt => enablePtt
      case Pic => enablePic
      case File => enableFile
      case Log => enableLog
      case LogCache => enableLogCache
      case NtTemp => enableNtTemp
      case NapCatData => enableNapCatData
      case NapCatTemp => enableNapCatTemp
    }
  }

  const NoOptions: PartialOptions :=
    PartialOptions(None, None, None, None, None, None, None, None, None, None, None)

  /** `{ ...o, ...p }`: the fields present in `p` win, the others come from `o`. */
  function Merge(o: CleanOptions, p: PartialOptions): CleanOptions {
    CleanOptions(
      p.enableVideo.GetOr(o.enableVideo),
      p.enableVideoThumb.GetOr(o.enableVideoThumb),
      p.enablePtt.GetOr(o.enablePtt),
      p.enablePic.GetOr(o.enablePic),
      p.enableFile.GetOr(o.enableFile),
      p.enableLog.GetOr(o.enableLog),
      p.enableLogCache.GetOr(o.enableLogCache),
      p.enableNtTemp.GetOr(o.enableNtTemp),
      p.enableNapCatData.GetOr(o.enableNapCatData),
      p.enableNapCatTemp.GetOr(o.enableNapCatTemp),
      p.retainDays.GetOr(o.retainDays))
  }

  /** A merged record takes each flag and the retention from the partial when present, else from `o`. */
  lemma MergeTakesPresentFields(o: CleanOptions, p: PartialOptions)
    ensures forall c :: Merge(o, p).Enabled(c) == p.Flag(c).GetOr(o.Enabled(c))
    ensures Merge(o, p).retainDays == p.retainDays.GetOr(o.retainDays)
  {
    forall c ensures Merge(o, p).Enabled(c) == p.Flag(c).GetOr(o.Enabled(c)) {
      match c
      case Video => case VideoThumb => case Ptt => case Pic => case File =>
      case Log => case LogCache => case NtTemp => case NapCatData => case NapCatTemp =>
    }
  }

  /** Merging an empty partial changes nothing; merging the same partial twice is merging it once. */
  lemma MergeIdentityAndIdempotent(o: CleanOptions, p: PartialOptions)
    ensures Merge(o, NoOptions) == o
    ensures Merge(Merge(o, p), p) == Merge(o, p)
  {
  }

  /** Setting the retention leaves every category flag as it was. */
  lemma RetainDaysLeavesFlags(o: CleanOptions, n: int)
    ensures forall c :: o.(retainDays := n).Enabled(c) == o.Enabled(c)
  {
    forall c ensures o.(retainDays := n).Enabled(c) == o.Enabled(c) {
      match c
      case Video => case VideoThumb => case Ptt => case Pic => case File =>
      case Log => case LogCache => case NtTemp => case NapCatData => case NapCatTemp =>
    }
  }

  /** `defaultCleanOptions`. */
  const DefaultCleanOptions: CleanOptions :=
    CleanOptions(true, true, true, true, true, true, true, true, false, true, 7)

  /** Every category is enabled by default except NapCat data; files are kept 7 days. */
  lemma DefaultsEnableAllButNapCatData()
    ensures forall c :: DefaultCleanOptions.Enabled(c) <==> c != NapCatData
    ensures DefaultCleanOptions.retainDays == 7
  {
  }

  /** Recurrence policy; `frequencyValue` is a weekday (0 = Sunday) for weekly and a day count for interval. */
  datatype Frequency = Daily | Weekly | Interval

  /** Stands for the `lastResult` text "deleted N files, freed <size>"; its formatting is not modelled. */
  datatype RunSummary = RunSummary(files: nat, size: nat)

  /** A scheduled task; `lastRun` is a timestamp in ms (the source stores it as an ISO string). */
  datatype ScheduleTask = ScheduleTask(
    id: string,
    name: string,
    accounts: seq<string>,
    options: CleanOptions,
    cronHour: int,
    cronMinute: int,
    frequency: Option<Frequency>,
    frequencyValue: Option<int>,
    enabled: bool,
    lastRun: Option<int>,
    lastResult: Option<RunSummary>)

  /** The persisted document: default options and the task list. */
  datatype Config = Config(defaultOptions: CleanOptions, scheduleTasks: seq<ScheduleTask>)

  /** Files and bytes, for one directory walk or one category. */
  datatype Counts = Counts(files: nat, size: nat) {
    function Plus(o: Counts): Counts {
      Counts(files + o.files, size + o.size)
    }
  }

  const Zero: Counts := Counts(0, 0)

  /** The `categories` object of `CleanStats`: one entry per category. */
  datatype Breakdown = Breakdown(
    video: Counts,
    videoThumb: Counts,
    ptt: Counts,
    pic: Counts,
    file: Counts,
    log: Counts,
    logCache: Counts,
    ntTemp: Counts,
    napCatData: Counts,
    napCatTemp: Counts)
  {
    function Get(c: Category): Counts {
      match c
      case Video => video
      case VideoThumb => videoThumb
      case Ptt => ptt
      case Pic => pic
      case File => file
      case Log => log
      case LogCache => logCache
      case NtTemp => ntTemp
      case NapCatData => napCatData
      case NapCatTemp => napCatTemp
    }

    /** `categories[c] += v`. */
    function Add(c: Category, v: Counts): Breakdown {
      match c
      case Video => this.(video := video.Plus(v))
      case VideoThumb => this.(videoThumb := videoThumb.Plus(v))
      case Ptt => this.(ptt := ptt.Plus(v))
      case Pic => this.(pic := pic.Plus(v))
      case File => this.(file := file.Plus(v))
      case Log => this.(log := log.Plus(v))
      case LogCache => this.(logCache := logCache.Plus(v))
      case NtTemp => this.(ntTemp := ntTemp.Plus(v))
      case NapCatData => this.(napCatData := napCatData.Plus(v))
      case NapCatTemp => this.(napCatTemp := napCatTemp.Plus(v))
    }
  }

  /** Adding to one category changes that entry by `v` and no other. */
  lemma AddChangesOneEntry(b: Breakdown, c: Category, v: Counts)
    ensures b.Add(c, v).Get(c) == b.Get(c).Plus(v)
    ensures forall x :: x != c ==> b.Add(c, v).Get(x) == b.Get(x)
  {
    forall x | x != c ensures b.Add(c, v).Get(x) == b.Get(x) {
      match c
      case Video => case VideoThumb => case Ptt => case Pic => case File =>
      case Log => case LogCache => case NtTemp => case NapCatData => case NapCatTemp =>
    }
  }

  const ZeroBreakdown: Breakdown := Breakdown(Zero, Zero, Zero, Zero, Zero, Zero, Zero, Zero, Zero, Zero)

  /** Totals and the per-category breakdown of a scan or a clean. */
  datatype CleanStats = CleanStats(totalFiles: nat, totalSize: nat, categories: Breakdown)

  /** The sum of the per-category entries over `cats`. */
  function SumCategories(b: Breakdown, cats: seq<Category>): Counts {
    if cats == [] then Zero
    else SumCategories(b, cats[..|cats| - 1]).Plus(b.Get(cats[|cats| - 1]))
  }

  /** Totals agree with the breakdown. */
  predicate Consistent(s: CleanStats) {
    SumCategories(s.categories, AllCategories) == Counts(s.totalFiles, s.totalSize)
  }

  /** Adding to a category outside `cats` does not change the sum over `cats`. */
  lemma {:induction false} SumCategoriesOutside(b: Breakdown, cats: seq<Category>, c: Category, v: Counts)
    requires c !in cats
    ensures SumCategories(b.Add(c, v), cats) == SumCategories(b, cats)
  {
    AddChangesOneEntry(b, c, v);
    if cats != [] {
      SumCategoriesOutside(b, cats[..|cats| - 1], c, v);
    }
  }

  /** Filling a still-empty category adds exactly its counts to the running totals. */
  lemma SumAfterAdd(b: Breakdown, cats: seq<Category>, c: Category, v: Counts)
    requires c !in cats && b.Get(c) == Zero
    ensures SumCategories(b.Add(c, v), cats + [c]) == SumCategories(b, cats).Plus(v)
  {
    assert (cats + [c])[..|cats|] == cats;
    SumCategoriesOutside(b, cats, c, v);
    AddChangesOneEntry(b, c, v);
  }

  /** The category at position `k` of `AllCategories` is not among the ones before it. */
  lemma CategoryNotBefore(k: nat)
    requires k < |AllCategories|
    ensures AllCategories[k] !in AllCategories[..k]
  {
    AllCategoriesListsEachOnce();
  }

  /** The breakdown after adding `f(c)` to each category `c` of `cats`, in order. */
  function Fill(f: Category -> Counts, cats: seq<Category>): Breakdown {
    if cats == [] then ZeroBreakdown
    else
      var c := cats[|cats| - 1];
      Fill(f, cats[..|cats| - 1]).Add(c, f(c))
  }

  /** Each category of a repetition-free `cats` holds `f` of it; every other category stays zero. */
  lemma {:induction false} FillReports(f: Category -> Counts, cats: seq<Category>, c: Category)
    requires forall i, j :: 0 <= i < j < |cats| ==> cats[i] != cats[j]
    ensures Fill(f, cats).Get(c) == if c in cats then f(c) else Zero
  {
    if cats != [] {
      var init, l := cats[..|cats| - 1], cats[|cats| - 1];
      FillReports(f, init, c);
      FillReports(f, init, l);
      var b := Fill(f, init);
      AddChangesOneEntry(b, l, f(l));
      assert cats == init + [l];
      assert c in cats <==> c in init || c == l;
      if c == l {
        assert b.Get(c) == Zero;
      }
    }
  }

  /** One step of the category loop: adding `f` of the next category extends both the breakdown and its total. */
  lemma FillStep(f: Category -> Counts, k: nat, b: Breakdown, total: Counts)
    requires k < |AllCategories|
    requires b == Fill(f, AllCategories[..k]) && total == SumCategories(b, AllCategories[..k])
    ensures b.Add(AllCategories[k], f(AllCategories[k])) == Fill(f, AllCategories[..k + 1])
    ensures total.Plus(f(AllCategories[k])) == SumCategories(b.Add(AllCategories[k], f(AllCategories[k])), AllCategories[..k + 1])
  {
    var cat := AllCategories[k];
    CategoryNotBefore(k);
    AllCategoriesListsEachOnce();
    FillReports(f, AllCategories[..k], cat);
    SumAfterAdd(b, AllCategories[..k], cat, f(cat));
    assert AllCategories[..k + 1] == AllCategories[..k] + [cat];
    assert AllCategories[..k + 1][..k] == AllCategories[..k];
  }

  /** The directories to walk for each category. */
  datatype CleanablePaths = CleanablePaths(
    video: seq<Path>,
    videoThumb: seq<Path>,
    ptt: seq<Path>,
    pic: seq<Path>,
    file: seq<Path>,
    log: seq<Path>,
    logCache: seq<Path>,
    ntTemp: seq<Path>,
    napCatData: seq<Path>,
    napCatTemp: seq<Path>)
  {
    function Of(c: Category): seq<Path> {
      match c
      case Video => video
      case VideoThumb => videoThumb
      case Ptt => ptt
      case Pic => pic
      case File => file
      case Log => log
      case LogCache => logCache
      case NtTemp => ntTemp
      case NapCatData => napCatData
      case NapCatTemp => napCatTemp
    }
  }

  const NoPaths: CleanablePaths := CleanablePaths([], [], [], [], [], [], [], [], [], [])
}
