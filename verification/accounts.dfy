/**
 * `getAllAccounts` of `src/services/cleaner-service.ts`: the accounts a task
 * with an empty account list cleans. On Windows they are the account
 * directories under the data directory; on Linux they are the known uin -> uid
 * entries whose hash directory is cached or exists.
 */
module Accounts {
  import opened Wrappers
  import opened FileTree
  import opened Utils
  import opened OrderedMaps
  import opened State
  import opened NtPaths

  /** An entry the Windows listing keeps: a directory named like a uin. */
  predicate IsAccountEntry(e: Entry) {
    e.node.Directory? && IsUinDirName(e.name)
  }

  /** The names of the account directories of a listing, in listing order. */
  function WindowsAccounts(es: seq<Entry>): (r: seq<string>)
    ensures |r| <= |es|
    ensures forall a :: a in r ==> IsUinDirName(a)
  {
    if es == [] then []
    else
      var e := es[|es| - 1];
      WindowsAccounts(es[..|es| - 1]) + (if IsAccountEntry(e) then [e.name] else [])
  }

  /** A name is listed exactly when an account directory of that name is in the listing. */
  lemma {:induction false} WindowsAccountsMembership(es: seq<Entry>, a: string)
    ensures a in WindowsAccounts(es) <==> exists i :: 0 <= i < |es| && IsAccountEntry(es[i]) && es[i].name == a
  {
    if es != [] {
      var init, l := es[..|es| - 1], es[|es| - 1];
      WindowsAccountsMembership(init, a);
      assert forall i :: 0 <= i < |init| ==> init[i] == es[i];
      if a in WindowsAccounts(es) && a !in WindowsAccounts(init) {
        assert es[|es| - 1] == l;
      }
    }
  }

  /** The accounts found and the per-account directory cache afterwards. */
  datatype AccountScan = AccountScan(accounts: seq<string>, hashDirs: OrderedMap<string, Path>)

  /**
   * The Linux `forEach` over the uin -> uid entries `keys` (in insertion
   * order): an uncached account whose hash directory exists is cached; a
   * cached account is listed.
   */
  function LinuxAccounts(root: Node, dataPath: Path, keys: seq<string>, uids: OrderedMap<string, string>,
                         hashDirs: OrderedMap<string, Path>, md5: string -> string): (r: AccountScan)
    requires hashDirs.Valid()
    requires forall k :: k in keys ==> k in uids.values
    ensures r.hashDirs.Valid()
  {
    if keys == [] then AccountScan([], hashDirs)
    else
      var r := LinuxAccounts(root, dataPath, keys[..|keys| - 1], uids, hashDirs, md5);
      var uin := keys[|keys| - 1];
      var hd := HashDir(dataPath, md5, uids.values[uin]);
      var h := if !r.hashDirs.Has(uin) && Exists(root, hd) then r.hashDirs.Set(uin, hd) else r.hashDirs;
      AccountScan(r.accounts + (if h.Has(uin) then [uin] else []), h)
  }

  /** One turn of the Linux `forEach`, on the entries before `i`. */
  lemma LinuxAccountsStep(root: Node, dataPath: Path, keys: seq<string>, i: nat, uids: OrderedMap<string, string>,
                          hashDirs: OrderedMap<string, Path>, md5: string -> string, r: AccountScan)
    requires hashDirs.Valid() && i < |keys|
    requires forall k :: k in keys ==> k in uids.values
    requires r == LinuxAccounts(root, dataPath, keys[..i], uids, hashDirs, md5)
    ensures var uin := keys[i];
      var hd := HashDir(dataPath, md5, uids.values[uin]);
      var h := if !r.hashDirs.Has(uin) && Exists(root, hd) then r.hashDirs.Set(uin, hd) else r.hashDirs;
      LinuxAccounts(root, dataPath, keys[..i + 1], uids, hashDirs, md5)
        == AccountScan(r.accounts + (if h.Has(uin) then [uin] else []), h)
  {
    assert keys[..i + 1][..i] == keys[..i];
    assert forall k :: k in keys[..i] ==> k in keys;
  }

  /** `getAllAccounts(dataPath)`. */
  function AllAccounts(isWindows: bool, root: Node, dataPath: Path, uids: OrderedMap<string, string>,
                       hashDirs: OrderedMap<string, Path>, md5: string -> string): AccountScan
    requires hashDirs.Valid() && uids.Valid()
  {
    if isWindows then
      match Lookup(root, dataPath)
      case Some(Directory(es)) => AccountScan(WindowsAccounts(es), hashDirs)
      case _ => AccountScan([], hashDirs)
    else LinuxAccounts(root, dataPath, uids.keys, uids, hashDirs, md5)
  }

  /** `getAllAccounts`: on Linux it fills in the directory cache as it goes. */
  method GetAllAccounts(st: PluginState, disk: Disk, dataPath: Path, md5: string -> string)
    returns (accounts: seq<string>)
    requires st.Valid()
    modifies st
    ensures st.Valid()
    ensures AccountScan(accounts, st.uinToHashDir)
         == AllAccounts(st.isWindows, disk.root, dataPath, st.uinToUid, old(st.uinToHashDir), md5)
    ensures st.uinToUid == old(st.uinToUid) && st.config == old(st.config) && st.dataPath == old(st.dataPath)
    ensures st.scheduleTimers == old(st.scheduleTimers) && st.currentUid == old(st.currentUid)
    ensures st.logged == old(st.logged) && st.hasLogger == old(st.hasLogger) && st.saved == old(st.saved)
  {
    if st.isWindows {
      match Lookup(disk.root, dataPath) {
        case Some(Directory(es)) =>
          accounts := WindowsAccounts(es);
        case _ =>
          accounts := [];
      }
      return;
    }
    accounts := [];
    var keys := st.uinToUid.keys;
    var i := 0;
    while i < |keys|
      invariant 0 <= i <= |keys|
      invariant st.Valid()
      invariant st.uinToUid == old(st.uinToUid) && st.config == old(st.config) && st.dataPath == old(st.dataPath)
      invariant st.scheduleTimers == old(st.scheduleTimers) && st.currentUid == old(st.currentUid)
      invariant st.logged == old(st.logged) && st.hasLogger == old(st.hasLogger) && st.saved == old(st.saved)
      invariant AccountScan(accounts, st.uinToHashDir)
             == LinuxAccounts(disk.root, dataPath, keys[..i], st.uinToUid, old(st.uinToHashDir), md5)
    {
      LinuxAccountsStep(disk.root, dataPath, keys, i, st.uinToUid, old(st.uinToHashDir), md5,
                        AccountScan(accounts, st.uinToHashDir));
      var uin := keys[i];
      var uid := st.uinToUid.values[uin];
      var cache := st.uinToHashDir;
      if !cache.Has(uin) {
        var hd := HashDir(dataPath, md5, uid);
        if Exists(disk.root, hd) {
          cache := cache.Set(uin, hd);
        }
      }
      if cache.Has(uin) {
        accounts := accounts + [uin];
      }
      st.uinToHashDir := cache;
      i := i + 1;
    }
    assert keys[..|keys|] == keys;
  }

  /**
   * On Linux an account is listed exactly when it is a known uin whose
   * directory was cached or whose hash directory exists; listed accounts
   * are cached afterwards, newly cached ones under their hash directory,
   * and no cache entry is overwritten.
   */
  lemma {:induction false} LinuxAccountsMembership(root: Node, dataPath: Path, keys: seq<string>,
                                                   uids: OrderedMap<string, string>,
                                                   hashDirs: OrderedMap<string, Path>, md5: string -> string, a: string)
    requires hashDirs.Valid()
    requires forall k :: k in keys ==> k in uids.values
    requires forall i, j :: 0 <= i < j < |keys| ==> keys[i] != keys[j]
    ensures var r := LinuxAccounts(root, dataPath, keys, uids, hashDirs, md5);
      && (a in r.accounts <==> a in keys && (hashDirs.Has(a) || Exists(root, HashDir(dataPath, md5, uids.values[a]))))
      && (a in r.accounts ==> r.hashDirs.Has(a))
      && (hashDirs.Has(a) ==> r.hashDirs.Get(a) == hashDirs.Get(a))
      && (!hashDirs.Has(a) && r.hashDirs.Has(a) ==> a in keys && r.hashDirs.Get(a) == Some(HashDir(dataPath, md5, uids.values[a])))
      && |r.accounts| <= |keys|
  {
    if keys != [] {
      var init, uin := keys[..|keys| - 1], keys[|keys| - 1];
      assert forall k :: k in init ==> k in keys;
      LinuxAccountsMembership(root, dataPath, init, uids, hashDirs, md5, a);
      LinuxAccountsMembership(root, dataPath, init, uids, hashDirs, md5, uin);
      assert uin !in init;
      assert a in keys <==> a in init || a == uin;
    }
  }
}
