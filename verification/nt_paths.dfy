/**
 * Where the cleaner looks for one account's caches (`getNtDataPath`,
 * `getNtTempPath`, `getNapCatPath`, `getCleanablePaths` in
 * `src/services/cleaner-service.ts`). On Windows an account's data lives in
 * `<dataPath>/<uin>/nt_qq/nt_data`; on Linux in `<dataPath>/nt_qq_<hash>/nt_data`,
 * found through a per-account cache, through the uid hash, or by scanning.
 */
module NtPaths {
  import opened Wrappers
  import opened FileTree
  import opened Types
  import opened Utils
  import opened OrderedMaps
  import opened State

  /** The Windows location of an account's `nt_data`. */
  function WindowsNtData(dataPath: Path, uin: string): Path {
    dataPath + [uin, "nt_qq", "nt_data"]
  }

  /** The Linux directory of the account whose uid is `uid`. */
  function HashDir(dataPath: Path, md5: string -> string, uid: string): Path {
    dataPath + [HashDirPrefix + ComputeNtHash(md5, uid)]
  }

  /** The test the Linux scan applies to one entry of the data directory. */
  predicate ScanAccepts(root: Node, dataPath: Path, e: Entry) {
    e.node.Directory? && IsNtHashDirName(e.name) && Exists(root, dataPath + [e.name, "nt_data"])
  }

  /** The first entry, at or after `k`, the scan accepts. */
  function FirstAccepted(root: Node, dataPath: Path, es: seq<Entry>, k: nat): (r: Option<nat>)
    requires k <= |es|
    ensures r.Some? ==> k <= r.value < |es| && ScanAccepts(root, dataPath, es[r.value])
    ensures r.Some? ==> forall j :: k <= j < r.value ==> !ScanAccepts(root, dataPath, es[j])
    ensures r.None? ==> forall j :: k <= j < |es| ==> !ScanAccepts(root, dataPath, es[j])
    decreases |es| - k
  {
    if k == |es| then None
    else if ScanAccepts(root, dataPath, es[k]) then Some(k)
    else FirstAccepted(root, dataPath, es, k + 1)
  }

  /** The directory the scan settles on: the first accepted entry in listing order. */
  function ScanHashDirs(root: Node, dataPath: Path): Option<Path> {
    match Lookup(root, dataPath)
    case Some(Directory(es)) =>
      (match FirstAccepted(root, dataPath, es, 0)
       case Some(i) => Some(dataPath + [es[i].name])
       case None => None)
    case _ => None
  }

  /** The `nt_data` path found, and the per-account directory cache afterwards. */
  datatype Resolution = Resolution(ntData: Option<Path>, hashDirs: OrderedMap<string, Path>)

  /** A cached directory is used only when it is a non-empty path. */
  predicate CachedUsable(root: Node, hashDirs: OrderedMap<string, Path>, uin: string) {
    hashDirs.Get(uin).Some? && hashDirs.Get(uin).value != [] && Exists(root, hashDirs.Get(uin).value + ["nt_data"])
  }

  /** The uid route applies: a non-empty uid whose hash directory holds `nt_data`. */
  predicate UidUsable(root: Node, dataPath: Path, uids: OrderedMap<string, string>, uin: string, md5: string -> string) {
    uids.Get(uin).Some? && uids.Get(uin).value != "" &&
      Exists(root, HashDir(dataPath, md5, uids.Get(uin).value) + ["nt_data"])
  }

  /** `getNtDataPath(dataPath, uin)`. */
  function ResolveNtData(isWindows: bool, root: Node, dataPath: Path, uin: string,
                         uids: OrderedMap<string, string>, hashDirs: OrderedMap<string, Path>,
                         md5: string -> string): Resolution
    requires hashDirs.Valid()
  {
    if isWindows then
      var p := WindowsNtData(dataPath, uin);
      Resolution(if Exists(root, p) then Some(p) else None, hashDirs)
    else if CachedUsable(root, hashDirs, uin) then
      Resolution(Some(hashDirs.Get(uin).value + ["nt_data"]), hashDirs)
    else if UidUsable(root, dataPath, uids, uin, md5) then
      var hd := HashDir(dataPath, md5, uids.Get(uin).value);
      Resolution(Some(hd + ["nt_data"]), hashDirs.Set(uin, hd))
    else
      match ScanHashDirs(root, dataPath)
      case Some(hd) => Resolution(Some(hd + ["nt_data"]), if hashDirs.Has(uin) then hashDirs else hashDirs.Set(uin, hd))
      case None => Resolution(None, hashDirs)
  }

  /** `getNtDataPath`: may record the account's directory in the cache. */
  method GetNtDataPath(st: PluginState, disk: Disk, dataPath: Path, uin: string, md5: string -> string)
    returns (r: Option<Path>)
    requires st.Valid()
    modifies st
    ensures st.Valid()
    ensures Resolution(r, st.uinToHashDir)
         == ResolveNtData(st.isWindows, disk.root, dataPath, uin, st.uinToUid, old(st.uinToHashDir), md5)
    ensures st.uinToUid == old(st.uinToUid) && st.config == old(st.config) && st.dataPath == old(st.dataPath)
    ensures st.scheduleTimers == old(st.scheduleTimers) && st.currentUid == old(st.currentUid)
    ensures st.logged == old(st.logged) && st.hasLogger == old(st.hasLogger) && st.saved == old(st.saved)
  {
    if st.isWindows {
      var p := WindowsNtData(dataPath, uin);
      if Exists(disk.root, p) {
        return Some(p);
      }
      return None;
    }
    var cached := st.uinToHashDir.Get(uin);
    if cached.Some? && cached.value != [] && Exists(disk.root, cached.value + ["nt_data"]) {
      return Some(cached.value + ["nt_data"]);
    }
    var uid := st.uinToUid.Get(uin);
    if uid.Some? && uid.value != "" {
      var hd := HashDir(dataPath, md5, uid.value);
      if Exists(disk.root, hd + ["nt_data"]) {
        st.uinToHashDir := st.uinToHashDir.Set(uin, hd);
        return Some(hd + ["nt_data"]);
      }
    }
    match Lookup(disk.root, dataPath) {
      case Some(Directory(es)) =>
        var found := FindHashDir(disk.root, dataPath, es);
        if found.Some? {
          var hd := dataPath + [es[found.value].name];
          if !st.uinToHashDir.Has(uin) {
            st.uinToHashDir := st.uinToHashDir.Set(uin, hd);
          }
          return Some(hd + ["nt_data"]);
        }
        return None;
      case _ =>
        return None;
    }
  }

  /** The scan loop of `getNtDataPath`: the first entry that is a hash directory holding `nt_data`. */
  method FindHashDir(root: Node, dataPath: Path, es: seq<Entry>) returns (found: Option<nat>)
    ensures found == FirstAccepted(root, dataPath, es, 0)
  {
    var i := 0;
    while i < |es|
      invariant 0 <= i <= |es|
      invariant FirstAccepted(root, dataPath, es, 0) == FirstAccepted(root, dataPath, es, i)
    {
      var e := es[i];
      if e.node.Directory? && IsNtHashDirName(e.name) {
        var hd := dataPath + [e.name];
        if Exists(root, hd + ["nt_data"]) {
          assert hd + ["nt_data"] == dataPath + [e.name, "nt_data"];
          return Some(i);
        }
      }
      assert !ScanAccepts(root, dataPath, e) by {
        assert dataPath + [e.name] + ["nt_data"] == dataPath + [e.name, "nt_data"];
      }
      i := i + 1;
    }
    return None;
  }

  /**
   * What `getNtDataPath` promises: a path it returns exists and ends in
   * `nt_data`; on Windows the cache is untouched; on Linux the cache stays a
   * valid map, only the account's own entry can change, and an account with
   * no entry gets the directory the path was found in.
   */
  lemma ResolvedPathExistsAndIsCached(isWindows: bool, root: Node, dataPath: Path, uin: string,
                                      uids: OrderedMap<string, string>, hashDirs: OrderedMap<string, Path>,
                                      md5: string -> string)
    requires hashDirs.Valid()
    ensures var r := ResolveNtData(isWindows, root, dataPath, uin, uids, hashDirs, md5);
      && r.hashDirs.Valid()
      && (r.ntData.Some? ==> Exists(root, r.ntData.value) && |r.ntData.value| > 0
                             && r.ntData.value[|r.ntData.value| - 1] == "nt_data")
      && (isWindows ==> r.hashDirs == hashDirs)
      && (forall u :: u != uin ==> r.hashDirs.Get(u) == hashDirs.Get(u))
      && (r.ntData.Some? && !isWindows && !hashDirs.Has(uin) ==>
            r.hashDirs.Get(uin) == Some(r.ntData.value[..|r.ntData.value| - 1]))
  {
    var r := ResolveNtData(isWindows, root, dataPath, uin, uids, hashDirs, md5);
    if !isWindows && !CachedUsable(root, hashDirs, uin) && !UidUsable(root, dataPath, uids, uin, md5) {
      var look := Lookup(root, dataPath);
      if look.Some? && look.value.Directory? {
        var es := look.value.entries;
        var fa := FirstAccepted(root, dataPath, es, 0);
        if fa.Some? {
          var hd := dataPath + [es[fa.value].name];
          assert hd + ["nt_data"] == dataPath + [es[fa.value].name, "nt_data"];
          assert (hd + ["nt_data"])[..|hd|] == hd;
        }
      }
    } else if !isWindows && !CachedUsable(root, hashDirs, uin) {
      var hd := HashDir(dataPath, md5, uids.Get(uin).value);
      assert (hd + ["nt_data"])[..|hd|] == hd;
    }
  }

  /**
   * On Linux, an account that neither its cache entry nor its uid resolves
   * gets whatever directory the scan finds first, independent of the
   * account: two such accounts resolve to the same `nt_data`.
   */
  lemma ScanIgnoresAccount(root: Node, dataPath: Path, uin1: string, uin2: string,
                           uids: OrderedMap<string, string>, hashDirs: OrderedMap<string, Path>,
                           md5: string -> string)
    requires hashDirs.Valid()
    requires !CachedUsable(root, hashDirs, uin1) && !UidUsable(root, dataPath, uids, uin1, md5)
    requires !CachedUsable(root, hashDirs, uin2) && !UidUsable(root, dataPath, uids, uin2, md5)
    ensures ResolveNtData(false, root, dataPath, uin1, uids, hashDirs, md5).ntData
         == ResolveNtData(false, root, dataPath, uin2, uids, hashDirs, md5).ntData
    ensures ResolveNtData(false, root, dataPath, uin1, uids, hashDirs, md5).ntData
         == (match ScanHashDirs(root, dataPath) case Some(hd) => Some(hd + ["nt_data"]) case None => None)
  {
  }

  /** `getNtTempPath`: Linux only, and only through the cached directory. */
  function NtTempPath(isWindows: bool, root: Node, hashDirs: OrderedMap<string, Path>, uin: string): (r: Option<Path>)
    ensures r.Some? ==> !isWindows && Exists(root, r.value)
    ensures r.Some? ==> hashDirs.Get(uin).Some? && r.value == hashDirs.Get(uin).value + ["nt_temp"]
    ensures isWindows || hashDirs.Get(uin).None? ==> r.None?
  {
    if isWindows then None
    else
      match hashDirs.Get(uin)
      case Some(hd) =>
        if hd != [] && Exists(root, hd + ["nt_temp"]) then Some(hd + ["nt_temp"]) else None
      case None => None
  }

  /** `getNapCatPath`: the same on both platforms. */
  function NapCatPath(dataPath: Path): Path {
    dataPath + ["NapCat"]
  }

  // ---------------------------------------------------------------------------
  // The cleanable directories of an account

  /** `[p]` when `p` exists, `[]` otherwise. */
  function IfExists(root: Node, p: Path): seq<Path> {
    if Exists(root, p) then [p] else []
  }

  /** Video and picture months: `Ori` when it exists, else the month directory itself. */
  function OriOrDir(root: Node, d: Path): seq<Path> {
    if Exists(root, d + ["Ori"]) then [d + ["Ori"]] else [d]
  }

  /** Video thumbnails of one month: `Thumb` and `ThumbTemp`, those that exist. */
  function ThumbsOf(root: Node, d: Path): seq<Path> {
    IfExists(root, d + ["Thumb"]) + IfExists(root, d + ["ThumbTemp"])
  }

  /** Voice messages of one month: `Ori` and `OriTemp` that exist, else the month directory. */
  function PttOf(root: Node, d: Path): seq<Path> {
    var ps := IfExists(root, d + ["Ori"]) + IfExists(root, d + ["OriTemp"]);
    if |ps| > 0 then ps else [d]
  }

  function OriOrDirIn(root: Node): Path -> seq<Path> {
    d => OriOrDir(root, d)
  }

  function ThumbsIn(root: Node): Path -> seq<Path> {
    d => ThumbsOf(root, d)
  }

  function PttIn(root: Node): Path -> seq<Path> {
    d => PttOf(root, d)
  }

  /** `Array.prototype.flatMap`. */
  function FlatMap(ds: seq<Path>, f: Path -> seq<Path>): seq<Path> {
    if ds == [] then [] else FlatMap(ds[..|ds| - 1], f) + f(ds[|ds| - 1])
  }

  /** The month directories under `nt_data/<kind>`. */
  function Months(root: Node, ntData: Path, kind: string): seq<Path> {
    GetDateSubdirs(root, ntData + [kind])
  }

  /**
   * The body of `getCleanablePaths` once `nt_data` (if any) and `nt_temp`
   * (if any) are known: with no `nt_data` every list is empty.
   */
  function CategoryPaths(root: Node, dataPath: Path, ntData: Option<Path>, ntTemp: Option<Path>): CleanablePaths {
    match ntData
    case None => NoPaths
    case Some(nd) =>
      CleanablePaths(
        video := FlatMap(Months(root, nd, "Video"), OriOrDirIn(root)),
        videoThumb := FlatMap(Months(root, nd, "Video"), ThumbsIn(root)),
        ptt := FlatMap(Months(root, nd, "Ptt"), PttIn(root)),
        pic := FlatMap(Months(root, nd, "Pic"), OriOrDirIn(root)),
        file := IfExists(root, nd + ["File", "Ori"]) + IfExists(root, nd + ["File", "Thumb"])
                + IfExists(root, nd + ["File", "ThumbTemp"]),
        log := IfExists(root, nd + ["log"]),
        logCache := IfExists(root, nd + ["log-cache"]),
        ntTemp := if ntTemp.Some? then [ntTemp.value] else [],
        napCatData := IfExists(root, NapCatPath(dataPath) + ["data"]),
        napCatTemp := IfExists(root, NapCatPath(dataPath) + ["temp"]))
  }

  /** `getCleanablePaths(dataPath, uin)`: resolves `nt_data` (updating the cache), then lists. */
  method GetCleanablePaths(st: PluginState, disk: Disk, dataPath: Path, uin: string, md5: string -> string)
    returns (paths: CleanablePaths)
    requires st.Valid()
    modifies st
    ensures st.Valid()
    ensures var res := ResolveNtData(st.isWindows, disk.root, dataPath, uin, st.uinToUid, old(st.uinToHashDir), md5);
      && st.uinToHashDir == res.hashDirs
      && paths == CategoryPaths(disk.root, dataPath, res.ntData, NtTempPath(st.isWindows, disk.root, res.hashDirs, uin))
    ensures st.uinToUid == old(st.uinToUid) && st.config == old(st.config) && st.dataPath == old(st.dataPath)
    ensures st.scheduleTimers == old(st.scheduleTimers) && st.currentUid == old(st.currentUid)
    ensures st.logged == old(st.logged) && st.hasLogger == old(st.hasLogger) && st.saved == old(st.saved)
  {
    var ntData := GetNtDataPath(st, disk, dataPath, uin, md5);
    if ntData.None? {
      return NoPaths;
    }
    var ntTemp := NtTempPath(st.isWindows, disk.root, st.uinToHashDir, uin);
    paths := CategoryPaths(disk.root, dataPath, ntData, ntTemp);
  }

  lemma {:induction false} FlatMapMembership(ds: seq<Path>, f: Path -> seq<Path>, p: Path)
    ensures p in FlatMap(ds, f) <==> exists d :: d in ds && p in f(d)
  {
    if ds != [] {
      var init, l := ds[..|ds| - 1], ds[|ds| - 1];
      FlatMapMembership(init, f, p);
      assert forall d :: d in ds <==> d in init || d == l by {
        assert ds == init + [l];
      }
    }
  }

  /** When every directory yields exactly one path, the i-th path comes from the i-th directory. */
  lemma {:induction false} FlatMapOneEach(ds: seq<Path>, f: Path -> seq<Path>)
    requires forall d :: d in ds ==> |f(d)| == 1
    ensures |FlatMap(ds, f)| == |ds|
    ensures forall i :: 0 <= i < |ds| ==> FlatMap(ds, f)[i] == f(ds[i])[0]
  {
    if ds != [] {
      var init := ds[..|ds| - 1];
      assert forall d :: d in init ==> d in ds;
      FlatMapOneEach(init, f);
    }
  }

  /** When every directory yields one or two paths, there are between |ds| and 2|ds| paths. */
  lemma {:induction false} FlatMapBetween(ds: seq<Path>, f: Path -> seq<Path>, lo: nat, hi: nat)
    requires forall d :: d in ds ==> lo <= |f(d)| <= hi
    ensures lo * |ds| <= |FlatMap(ds, f)| <= hi * |ds|
  {
    if ds != [] {
      var init, l := ds[..|ds| - 1], ds[|ds| - 1];
      assert forall d :: d in init ==> d in ds;
      assert l in ds;
      FlatMapBetween(init, f, lo, hi);
      MulSucc(lo, |init|);
      MulSucc(hi, |init|);
    }
  }

  lemma MulSucc(a: nat, n: nat)
    ensures a * (n + 1) == a * n + a
  {
  }

  /**
   * Video and picture months give exactly one path each, in order: the
   * month's `Ori` when it exists, else the month directory itself.
   */
  lemma OnePathPerMediaMonth(root: Node, dataPath: Path, nd: Path, ntTemp: Option<Path>, kind: string)
    requires kind == "Video" || kind == "Pic"
    ensures var ps := CategoryPaths(root, dataPath, Some(nd), ntTemp);
      var months := Months(root, nd, kind);
      var listed := if kind == "Video" then ps.video else ps.pic;
      && |listed| == |months|
      && forall i :: 0 <= i < |months| ==>
           listed[i] == if Exists(root, months[i] + ["Ori"]) then months[i] + ["Ori"] else months[i]
  {
    FlatMapOneEach(Months(root, nd, kind), OriOrDirIn(root));
  }

  /**
   * Each video month gives at most two thumbnail directories and each voice
   * month one or two paths, so in total at most two per video month and
   * between one and two per voice month.
   */
  lemma ThumbAndVoicePathsPerMonth(root: Node, dataPath: Path, nd: Path, ntTemp: Option<Path>)
    ensures forall m :: |ThumbsOf(root, m)| <= 2 && 1 <= |PttOf(root, m)| <= 2
    ensures var ps := CategoryPaths(root, dataPath, Some(nd), ntTemp);
      && |ps.videoThumb| <= 2 * |Months(root, nd, "Video")|
      && |Months(root, nd, "Ptt")| <= |ps.ptt| <= 2 * |Months(root, nd, "Ptt")|
  {
    FlatMapBetween(Months(root, nd, "Video"), ThumbsIn(root), 0, 2);
    FlatMapBetween(Months(root, nd, "Ptt"), PttIn(root), 1, 2);
  }

  /** A month's thumbnail paths are its `Thumb` and `ThumbTemp`, those that exist. */
  lemma ThumbsOfMember(root: Node, m: Path, p: Path)
    ensures p in ThumbsOf(root, m) <==> (p == m + ["Thumb"] || p == m + ["ThumbTemp"]) && Exists(root, p)
  {
    var a, b := IfExists(root, m + ["Thumb"]), IfExists(root, m + ["ThumbTemp"]);
    assert p in a + b <==> p in a || p in b;
  }

  /** A month's voice paths are its existing `Ori` and `OriTemp`, or the month itself when neither exists. */
  lemma PttOfMember(root: Node, m: Path, p: Path)
    ensures p in PttOf(root, m) <==>
      ((p == m + ["Ori"] || p == m + ["OriTemp"]) && Exists(root, p)) ||
      (p == m && !Exists(root, m + ["Ori"]) && !Exists(root, m + ["OriTemp"]))
  {
    var a, b := IfExists(root, m + ["Ori"]), IfExists(root, m + ["OriTemp"]);
    assert p in a + b <==> p in a || p in b;
    assert m != m + ["Ori"] && m != m + ["OriTemp"] by {
      assert |m + ["Ori"]| == |m + ["OriTemp"]| == |m| + 1;
    }
  }

  /**
   * The thumbnail paths are exactly the existing `Thumb` and `ThumbTemp`
   * directories of the video months; a month has no fallback.
   */
  lemma ThumbPathsOfMonths(root: Node, dataPath: Path, nd: Path, ntTemp: Option<Path>, p: Path)
    ensures p in CategoryPaths(root, dataPath, Some(nd), ntTemp).videoThumb <==>
      exists m :: m in Months(root, nd, "Video") &&
        (p == m + ["Thumb"] || p == m + ["ThumbTemp"]) && Exists(root, p)
  {
    var months := Months(root, nd, "Video");
    FlatMapMembership(months, ThumbsIn(root), p);
    forall m | m in months
      ensures p in ThumbsIn(root)(m) <==> (p == m + ["Thumb"] || p == m + ["ThumbTemp"]) && Exists(root, p)
    {
      ThumbsOfMember(root, m, p);
    }
  }

  /**
   * The voice paths are exactly the existing `Ori` and `OriTemp` directories
   * of the voice months, and each month that has neither.
   */
  lemma VoicePathsOfMonths(root: Node, dataPath: Path, nd: Path, ntTemp: Option<Path>, p: Path)
    ensures p in CategoryPaths(root, dataPath, Some(nd), ntTemp).ptt <==>
      exists m :: m in Months(root, nd, "Ptt") &&
        (((p == m + ["Ori"] || p == m + ["OriTemp"]) && Exists(root, p)) ||
         (p == m && !Exists(root, m + ["Ori"]) && !Exists(root, m + ["OriTemp"])))
  {
    var months := Months(root, nd, "Ptt");
    FlatMapMembership(months, PttIn(root), p);
    forall m | m in months
      ensures p in PttIn(root)(m) <==>
        ((p == m + ["Ori"] || p == m + ["OriTemp"]) && Exists(root, p)) ||
        (p == m && !Exists(root, m + ["Ori"]) && !Exists(root, m + ["OriTemp"]))
    {
      PttOfMember(root, m, p);
    }
  }

  /** With no `nt_data` nothing is listed, not even the NapCat directories. */
  lemma NoDataDirNoPaths(root: Node, dataPath: Path, ntTemp: Option<Path>)
    ensures forall c :: CategoryPaths(root, dataPath, None, ntTemp).Of(c) == []
  {
    forall c ensures CategoryPaths(root, dataPath, None, ntTemp).Of(c) == [] {
      match c
      case Video => case VideoThumb => case Ptt => case Pic => case File =>
      case Log => case LogCache => case NtTemp => case NapCatData => case NapCatTemp =>
    }
  }

  /**
   * Every listed directory lies inside the account's `nt_data`, except the
   * `nt_temp` directory given and the two NapCat directories under
   * `<dataPath>/NapCat`; the fixed locations and the thumbnail directories
   * are listed only when they exist.
   */
  lemma PathsStayInside(root: Node, dataPath: Path, nd: Path, ntTemp: Option<Path>, c: Category, p: Path)
    requires p in CategoryPaths(root, dataPath, Some(nd), ntTemp).Of(c)
    ensures c == NapCatData || c == NapCatTemp ==> NapCatPath(dataPath) < p && Exists(root, p)
    ensures c == NtTemp ==> ntTemp == Some(p)
    ensures c != NapCatData && c != NapCatTemp && c != NtTemp ==> nd < p
    ensures c == File || c == Log || c == LogCache || c == VideoThumb ==> Exists(root, p)
  {
    var ps := CategoryPaths(root, dataPath, Some(nd), ntTemp);
    match c
    case Video =>
      MediaPathInside(root, nd, "Video", p);
    case VideoThumb =>
      ThumbPathInside(root, nd, p);
    case Ptt =>
      VoicePathInside(root, nd, p);
    case Pic =>
      MediaPathInside(root, nd, "Pic", p);
    case File =>
      FilePathInside(root, nd, p);
    case Log =>
      IfExistsBelow(root, nd, ["log"], p);
    case LogCache =>
      IfExistsBelow(root, nd, ["log-cache"], p);
    case NtTemp =>
    case NapCatData =>
      IfExistsBelow(root, NapCatPath(dataPath), ["data"], p);
    case NapCatTemp =>
      IfExistsBelow(root, NapCatPath(dataPath), ["temp"], p);
  }

  /** A path listed because it exists lies below the base it was built on. */
  lemma IfExistsBelow(root: Node, base: Path, rest: Path, p: Path)
    requires rest != [] && p in IfExists(root, base + rest)
    ensures base < p && Exists(root, p)
  {
    assert (base + rest)[..|base|] == base;
  }

  lemma FilePathInside(root: Node, nd: Path, p: Path)
    requires p in IfExists(root, nd + ["File", "Ori"]) + IfExists(root, nd + ["File", "Thumb"])
                  + IfExists(root, nd + ["File", "ThumbTemp"])
    ensures nd < p && Exists(root, p)
  {
    if p in IfExists(root, nd + ["File", "Ori"]) {
      IfExistsBelow(root, nd, ["File", "Ori"], p);
    } else if p in IfExists(root, nd + ["File", "Thumb"]) {
      IfExistsBelow(root, nd, ["File", "Thumb"], p);
    } else {
      IfExistsBelow(root, nd, ["File", "ThumbTemp"], p);
    }
  }

  lemma ThumbPathInside(root: Node, nd: Path, p: Path)
    requires p in FlatMap(Months(root, nd, "Video"), ThumbsIn(root))
    ensures nd < p && Exists(root, p)
  {
    var months := Months(root, nd, "Video");
    FlatMapMembership(months, ThumbsIn(root), p);
    var d :| d in months && p in ThumbsIn(root)(d);
    assert ThumbsIn(root)(d) == ThumbsOf(root, d);
    assert p == d + ["Thumb"] || p == d + ["ThumbTemp"];
    BelowMonth(root, nd, "Video", d, p);
  }

  lemma VoicePathInside(root: Node, nd: Path, p: Path)
    requires p in FlatMap(Months(root, nd, "Ptt"), PttIn(root))
    ensures nd < p
  {
    var months := Months(root, nd, "Ptt");
    FlatMapMembership(months, PttIn(root), p);
    var d :| d in months && p in PttIn(root)(d);
    assert PttIn(root)(d) == PttOf(root, d);
    var a, b := IfExists(root, d + ["Ori"]), IfExists(root, d + ["OriTemp"]);
    if |a + b| > 0 {
      assert p in a + b;
      assert p in a || p in b;
      assert p == d + ["Ori"] || p == d + ["OriTemp"];
    }
    BelowMonth(root, nd, "Ptt", d, p);
  }

  lemma MediaPathInside(root: Node, nd: Path, kind: string, p: Path)
    requires p in FlatMap(Months(root, nd, kind), OriOrDirIn(root))
    ensures nd < p
  {
    var months := Months(root, nd, kind);
    FlatMapMembership(months, OriOrDirIn(root), p);
    var d :| d in months && p in OriOrDirIn(root)(d);
    assert OriOrDirIn(root)(d) == OriOrDir(root, d);
    assert p == d + ["Ori"] || p == d;
    BelowMonth(root, nd, kind, d, p);
  }

  /** Anything at or below a month directory of `nd` lies strictly below `nd`. */
  lemma BelowMonth(root: Node, nd: Path, kind: string, d: Path, p: Path)
    requires d in Months(root, nd, kind)
    requires p == d || (|p| > |d| && p[..|d|] == d)
    ensures nd < p
  {
    var base := nd + [kind];
    DateDirsShape(base, Lookup(root, base).value.entries, d);
    assert d[..|base|] == base && |d| == |base| + 1;
    assert p[..|d|] == d;
    assert p[..|nd|] == d[..|nd|] == base[..|nd|] == nd;
  }

  /**
   * When a video month has no `Ori`, the month directory itself is a video
   * path, so a clean of videos walks its `Thumb` too: turning thumbnails off
   * does not protect them in that case.
   */
  lemma ThumbnailsInsideVideoPath(root: Node, dataPath: Path, nd: Path, ntTemp: Option<Path>, d: Path)
    requires d in Months(root, nd, "Video")
    requires !Exists(root, d + ["Ori"])
    ensures d in CategoryPaths(root, dataPath, Some(nd), ntTemp).video
    ensures d < d + ["Thumb"]
  {
    FlatMapMembership(Months(root, nd, "Video"), OriOrDirIn(root), d);
  }
}
