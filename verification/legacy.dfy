/**
 * The single-file plugin `index.ts` that predates `src/`. Its walkers, path
 * resolution, clean, scheduler and routes are copies of the `src/` ones and
 * are modelled by the same members; its module globals (`isWindows`,
 * `uinToUidMap`, `uinToHashDirMap`, `currentUid`) are the fields of
 * `PluginState`. Only `getAllAccounts` differs, and is modelled here.
 *
 * On Linux the copy lists the uins already cached; with none cached it probes
 * for the current account's hash directory, but under `.config/QQ` below the
 * data directory, while everywhere else the data directory is itself the QQ
 * directory. `LegacyAccounts` is the code as written, `ProbedAccounts` the
 * corrected probe.
 */
module Legacy {
  import opened Wrappers
  import opened FileTree
  import opened Utils
  import opened OrderedMaps
  import opened State
  import opened NtPaths
  import opened Accounts

  /** The directory the copy probes for the current account. */
  function LegacyProbe(dataPath: Path, md5: string -> string, currentUid: string): Path {
    dataPath + [".config", "QQ", HashDirPrefix + ComputeNtHash(md5, currentUid)]
  }

  /**
   * The `uinToUidMap.forEach` of the probe, over `keys` in insertion order:
   * every uin whose uid is the current one is listed and cached under `hashDir`.
   */
  function ClaimCurrent(keys: seq<string>, uids: OrderedMap<string, string>, currentUid: string,
                        hashDir: Path, hashDirs: OrderedMap<string, Path>): (r: AccountScan)
    requires hashDirs.Valid()
    ensures r.hashDirs.Valid()
  {
    if keys == [] then AccountScan([], hashDirs)
    else
      var s := ClaimCurrent(keys[..|keys| - 1], uids, currentUid, hashDir, hashDirs);
      var uin := keys[|keys| - 1];
      if uids.Get(uin) == Some(currentUid) then AccountScan(s.accounts + [uin], s.hashDirs.Set(uin, hashDir)) else s
  }

  /** One turn of the probe's `forEach`, on the entries before `i`. */
  lemma ClaimCurrentStep(keys: seq<string>, i: nat, uids: OrderedMap<string, string>, currentUid: string,
                         hashDir: Path, hashDirs: OrderedMap<string, Path>, r: AccountScan)
    requires hashDirs.Valid() && i < |keys|
    requires r == ClaimCurrent(keys[..i], uids, currentUid, hashDir, hashDirs)
    ensures ClaimCurrent(keys[..i + 1], uids, currentUid, hashDir, hashDirs)
         == if uids.Get(keys[i]) == Some(currentUid) then AccountScan(r.accounts + [keys[i]], r.hashDirs.Set(keys[i], hashDir))
            else r
  {
    assert keys[..i + 1][..i] == keys[..i];
  }

  /**
   * `getAllAccounts` of the copy, probing `probe` when nothing is cached:
   * nothing when the data directory is missing; on Windows the account
   * directories; on Linux the cached uins, or else the uins of the current
   * account when `probe` exists.
   */
  function AccountsProbing(probe: Path, isWindows: bool, root: Node, dataPath: Path, uids: OrderedMap<string, string>,
                           hashDirs: OrderedMap<string, Path>, currentUid: string): (r: AccountScan)
    requires uids.Valid() && hashDirs.Valid()
    ensures r.hashDirs.Valid()
  {
    if !Exists(root, dataPath) then AccountScan([], hashDirs)
    else if isWindows then
      match Lookup(root, dataPath)
      case Some(Directory(es)) => AccountScan(WindowsAccounts(es), hashDirs)
      case _ => AccountScan([], hashDirs)
    else if hashDirs.keys != [] || currentUid == "" || !Exists(root, probe) then AccountScan(hashDirs.keys, hashDirs)
    else ClaimCurrent(uids.keys, uids, currentUid, probe, hashDirs)
  }

  /** The copy as written: the probe looks under `.config/QQ`. */
  function LegacyAccounts(isWindows: bool, root: Node, dataPath: Path, uids: OrderedMap<string, string>,
                          hashDirs: OrderedMap<string, Path>, currentUid: string, md5: string -> string): (r: AccountScan)
    requires uids.Valid() && hashDirs.Valid()
    ensures r.hashDirs.Valid()
  {
    AccountsProbing(LegacyProbe(dataPath, md5, currentUid), isWindows, root, dataPath, uids, hashDirs, currentUid)
  }

  /** The copy with the probe corrected to the hash directory `getNtDataPath` uses. */
  function ProbedAccounts(isWindows: bool, root: Node, dataPath: Path, uids: OrderedMap<string, string>,
                          hashDirs: OrderedMap<string, Path>, currentUid: string, md5: string -> string): (r: AccountScan)
    requires uids.Valid() && hashDirs.Valid()
    ensures r.hashDirs.Valid()
  {
    AccountsProbing(HashDir(dataPath, md5, currentUid), isWindows, root, dataPath, uids, hashDirs, currentUid)
  }

  /** `getAllAccounts(dataPath)` of `index.ts`, as written. */
  method LegacyGetAllAccounts(st: PluginState, disk: Disk, dataPath: Path, md5: string -> string)
    returns (accounts: seq<string>)
    requires st.Valid()
    modifies st
    ensures st.Valid()
    ensures AccountScan(accounts, st.uinToHashDir)
         == LegacyAccounts(st.isWindows, disk.root, dataPath, st.uinToUid, old(st.uinToHashDir), st.currentUid, md5)
    ensures st.uinToUid == old(st.uinToUid) && st.config == old(st.config) && st.dataPath == old(st.dataPath)
    ensures st.scheduleTimers == old(st.scheduleTimers) && st.currentUid == old(st.currentUid)
    ensures st.logged == old(st.logged) && st.hasLogger == old(st.hasLogger) && st.saved == old(st.saved)
  {
    if !Exists(disk.root, dataPath) {
      return [];
    }
    if st.isWindows {
      match Lookup(disk.root, dataPath) {
        case Some(Directory(es)) =>
          accounts := WindowsAccounts(es);
        case _ =>
          accounts := [];
      }
      return;
    }
    accounts := st.uinToHashDir.keys;
    if |accounts| == 0 && st.currentUid != "" {
      var hashDir := LegacyProbe(dataPath, md5, st.currentUid);
      if Exists(disk.root, hashDir) {
        accounts := ClaimCurrentInPlace(st, hashDir);
      }
    }
  }

  /** The probe's `uinToUidMap.forEach`, caching `hashDir` for each uin of the current uid. */
  method ClaimCurrentInPlace(st: PluginState, hashDir: Path) returns (accounts: seq<string>)
    requires st.Valid()
    modifies st
    ensures st.Valid()
    ensures AccountScan(accounts, st.uinToHashDir)
         == ClaimCurrent(st.uinToUid.keys, st.uinToUid, st.currentUid, hashDir, old(st.uinToHashDir))
    ensures st.uinToUid == old(st.uinToUid) && st.config == old(st.config) && st.dataPath == old(st.dataPath)
    ensures st.scheduleTimers == old(st.scheduleTimers) && st.currentUid == old(st.currentUid)
    ensures st.logged == old(st.logged) && st.hasLogger == old(st.hasLogger) && st.saved == old(st.saved)
  {
    accounts := [];
    var keys := st.uinToUid.keys;
    var i := 0;
    while i < |keys|
      invariant 0 <= i <= |keys|
      invariant st.Valid()
      invariant st.uinToUid == old(st.uinToUid) && st.config == old(st.config) && st.dataPath == old(st.dataPath)
      invariant st.scheduleTimers == old(st.scheduleTimers) && st.currentUid == old(st.currentUid)
      invariant st.logged == old(st.logged) && st.hasLogger == old(st.hasLogger) && st.saved == old(st.saved)
      invariant AccountScan(accounts, st.uinToHashDir)
             == ClaimCurrent(keys[..i], st.uinToUid, st.currentUid, hashDir, old(st.uinToHashDir))
    {
      ClaimCurrentStep(keys, i, st.uinToUid, st.currentUid, hashDir, old(st.uinToHashDir),
                       AccountScan(accounts, st.uinToHashDir));
      var uin := keys[i];
      if st.uinToUid.Get(uin) == Some(st.currentUid) {
        accounts := accounts + [uin];
        var cache := st.uinToHashDir.Set(uin, hashDir);
        st.uinToHashDir := cache;
      }
      i := i + 1;
    }
    assert keys[..i] == keys;
  }

  /**
   * The probe lists exactly the uins whose uid is the current one, caches
   * each of them under the probed directory, and leaves other entries alone.
   */
  lemma {:induction false} ClaimCurrentMembership(keys: seq<string>, uids: OrderedMap<string, string>, currentUid: string,
                                                  hashDir: Path, hashDirs: OrderedMap<string, Path>, a: string)
    requires hashDirs.Valid()
    ensures var r := ClaimCurrent(keys, uids, currentUid, hashDir, hashDirs);
      && (a in r.accounts <==> a in keys && uids.Get(a) == Some(currentUid))
      && (a in r.accounts ==> r.hashDirs.Get(a) == Some(hashDir))
      && (a !in r.accounts ==> r.hashDirs.Get(a) == hashDirs.Get(a))
  {
    if keys != [] {
      var init, uin := keys[..|keys| - 1], keys[|keys| - 1];
      ClaimCurrentMembership(init, uids, currentUid, hashDir, hashDirs, a);
      assert a in keys <==> a in init || a == uin;
    }
  }

  /**
   * With the probe corrected, a Linux plugin that knows only the current
   * account's uid, and whose hash directory is the one `getNtDataPath`
   * resolves, lists that account and caches that directory for it.
   */
  lemma CorrectedProbeListsCurrentAccount(root: Node, dataPath: Path, uids: OrderedMap<string, string>,
                                          hashDirs: OrderedMap<string, Path>, currentUid: string,
                                          md5: string -> string, uin: string)
    requires uids.Valid() && hashDirs.Valid()
    requires hashDirs.keys == [] && currentUid != ""
    requires Exists(root, HashDir(dataPath, md5, currentUid))
    requires uids.Get(uin) == Some(currentUid)
    ensures var r := ProbedAccounts(false, root, dataPath, uids, hashDirs, currentUid, md5);
      && uin in r.accounts
      && r.hashDirs.Get(uin) == Some(HashDir(dataPath, md5, currentUid))
  {
    var hd := HashDir(dataPath, md5, currentUid);
    assert dataPath <= hd;
    assert hd == dataPath + (hd[|dataPath|..]);
    LookupConcat(root, dataPath, hd[|dataPath|..]);
    ClaimCurrentMembership(uids.keys, uids, currentUid, hd, hashDirs, uin);
  }

  /** A hash that does not depend on its input. */
  function ConstantMd5(s: string): string {
    "0123456789abcdef0123456789abcdef"
  }

  /**
   * The copy as written misses that same account: with the hash directory
   * directly in the data directory, where `getNtDataPath` finds it, the
   * probe under `.config/QQ` finds nothing and no account is listed.
   */
  lemma LegacyProbeMissesDataDir()
    ensures var uids := OrderedMap(["10001"], map["10001" := "u_1"]);
      var hd := HashDir([], ConstantMd5, "u_1");
      var root := Directory([Entry(hd[0], Directory([Entry("nt_data", Directory([]))]))]);
      && Exists(root, hd + ["nt_data"])
      && ResolveNtData(false, root, [], "10001", uids, Empty(), ConstantMd5).ntData == Some(hd + ["nt_data"])
      && LegacyAccounts(false, root, [], uids, Empty(), "u_1", ConstantMd5).accounts == []
      && ProbedAccounts(false, root, [], uids, Empty(), "u_1", ConstantMd5).accounts == ["10001"]
  {
    var uids := OrderedMap(["10001"], map["10001" := "u_1"]);
    var hd := HashDir([], ConstantMd5, "u_1");
    var name := hd[0];
    var root := Directory([Entry(name, Directory([Entry("nt_data", Directory([]))]))]);
    assert hd == [name];
    assert FindEntry(root.entries, name) == Some(0);
    assert Lookup(root, hd + ["nt_data"]).Some? by {
      var p := hd + ["nt_data"];
      assert p == [name, "nt_data"] && p[0] == name && p[1..] == ["nt_data"];
      var inner := root.entries[0].node;
      assert FindEntry(inner.entries, "nt_data") == Some(0);
      assert ["nt_data"][1..] == [];
      assert Lookup(inner.entries[0].node, []) == Some(Directory([]));
      assert Lookup(inner, ["nt_data"]).Some?;
    }
    var probe := LegacyProbe([], ConstantMd5, "u_1");
    assert probe[0] == ".config" && name[0] == 'n';
    assert FindEntry(root.entries, ".config") == None;
    assert !Exists(root, probe);
    assert Exists(root, hd);
    assert ClaimCurrent(uids.keys, uids, "u_1", hd, Empty()).accounts == ["10001"] by {
      assert uids.keys[..0] == [];
    }
    assert uids.Get("10001") == Some("u_1");
    assert UidUsable(root, [], uids, "10001", ConstantMd5);
  }
}
