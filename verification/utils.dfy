/**
 * The helpers of `src/core/utils.ts` the cleaner relies on: the Linux account
 * hash and the listing of month-named subdirectories, together with the
 * directory-name patterns the cleaner matches.
 */
module Utils {
  import opened Wrappers
  import opened FileTree

  predicate IsDigit(c: char) {
    '0' <= c <= '9'
  }

  predicate AllDigits(s: string) {
    forall i :: 0 <= i < |s| ==> IsDigit(s[i])
  }

  /** `/^\d{4}-\d{2}$/`: a month directory such as `2025-05`. */
  predicate IsDateDirName(name: string) {
    |name| == 7 &&
    IsDigit(name[0]) && IsDigit(name[1]) && IsDigit(name[2]) && IsDigit(name[3]) &&
    name[4] == '-' && IsDigit(name[5]) && IsDigit(name[6])
  }

  /** `/^\d{5,11}$/`: an account (uin) directory on Windows. */
  predicate IsUinDirName(name: string) {
    5 <= |name| <= 11 && AllDigits(name)
  }

  predicate IsLowerHex(c: char) {
    '0' <= c <= '9' || 'a' <= c <= 'f'
  }

  /** What `digest('hex')` of an md5 hash looks like: 32 lower-case hex digits. */
  predicate IsMd5Hex(s: string) {
    |s| == 32 && forall i :: 0 <= i < |s| ==> IsLowerHex(s[i])
  }

  const HashDirPrefix: string := "nt_qq_"

  /** `/^nt_qq_[a-f0-9]{32}$/`: a per-account data directory on Linux. */
  predicate IsNtHashDirName(name: string) {
    |name| == 38 && name[..6] == HashDirPrefix && IsMd5Hex(name[6..])
  }

  /**
   * `computeNtHash`: the hex md5 of the hex md5 of the uid followed by
   * `nt_kernel`. The digest itself is a parameter (`md5` maps a string to its
   * hex digest).
   */
  function ComputeNtHash(md5: string -> string, uid: string): string {
    md5(md5(uid) + "nt_kernel")
  }

  /**
   * The directory name the uid route builds, `nt_qq_` and the hash, is one the
   * directory scan accepts, whatever the uid, and it depends on the uid only
   * through `md5(uid)`.
   */
  lemma HashDirNameMatchesScanPattern(md5: string -> string, uid: string, uid': string)
    requires forall s :: IsMd5Hex(md5(s))
    ensures IsNtHashDirName(HashDirPrefix + ComputeNtHash(md5, uid))
    ensures md5(uid) == md5(uid') ==> ComputeNtHash(md5, uid) == ComputeNtHash(md5, uid')
  {
    var name := HashDirPrefix + ComputeNtHash(md5, uid);
    assert name[..6] == HashDirPrefix;
    assert name[6..] == ComputeNtHash(md5, uid);
  }

  /** An entry `getDateSubdirs` keeps: a directory with a month name. */
  predicate IsDateDirEntry(e: Entry) {
    e.node.Directory? && IsDateDirName(e.name)
  }

  /** The month subdirectories of a listing, joined onto `base`, in listing order. */
  function DateDirs(base: Path, es: seq<Entry>): (r: seq<Path>)
    ensures |r| <= |es|
  {
    if es == [] then []
    else
      var e := es[|es| - 1];
      DateDirs(base, es[..|es| - 1]) +
        (if IsDateDirEntry(e) then [base + [e.name]] else [])
  }

  /**
   * `getDateSubdirs(basePath)`: nothing when the base is missing or cannot be
   * listed (it is not a directory); otherwise its month subdirectories.
   */
  function GetDateSubdirs(root: Node, base: Path): (r: seq<Path>)
    ensures Lookup(root, base).None? ==> r == []
    ensures Lookup(root, base).Some? && !Lookup(root, base).value.Directory? ==> r == []
    ensures Lookup(root, base).Some? && Lookup(root, base).value.Directory? ==>
      r == DateDirs(base, Lookup(root, base).value.entries)
  {
    match Lookup(root, base)
    case Some(Directory(es)) => DateDirs(base, es)
    case _ => []
  }

  /** The listing order is kept: the result of a concatenation is the concatenation. */
  lemma {:induction false} DateDirsConcat(base: Path, a: seq<Entry>, b: seq<Entry>)
    ensures DateDirs(base, a + b) == DateDirs(base, a) + DateDirs(base, b)
    decreases |b|
  {
    if b == [] {
      assert a + b == a;
    } else {
      var b', l := b[..|b| - 1], b[|b| - 1];
      assert (a + b)[..|a + b| - 1] == a + b';
      assert (a + b)[|a + b| - 1] == l;
      DateDirsConcat(base, a, b');
    }
  }

  /** Every directory entry with a month name is listed, joined onto the base. */
  lemma {:induction false} DateDirsListed(base: Path, es: seq<Entry>, i: nat)
    requires i < |es| && IsDateDirEntry(es[i])
    ensures base + [es[i].name] in DateDirs(base, es)
  {
    var init, l := es[..|es| - 1], es[|es| - 1];
    var last := if IsDateDirEntry(l) then [base + [l.name]] else [];
    assert DateDirs(base, es) == DateDirs(base, init) + last;
    if i < |init| {
      assert init[i] == es[i];
      DateDirsListed(base, init, i);
    } else {
      assert base + [es[i].name] in last;
    }
  }

  /** Every listed path comes from a directory entry with a month name. */
  lemma {:induction false} DateDirsSource(base: Path, es: seq<Entry>, p: Path) returns (i: nat)
    requires p in DateDirs(base, es)
    ensures i < |es| && IsDateDirEntry(es[i]) && p == base + [es[i].name]
  {
    var init, l := es[..|es| - 1], es[|es| - 1];
    assert DateDirs(base, es) == DateDirs(base, init) + (if IsDateDirEntry(l) then [base + [l.name]] else []);
    if p in DateDirs(base, init) {
      i := DateDirsSource(base, init, p);
      assert init[i] == es[i];
    } else {
      i := |es| - 1;
    }
  }

  /** Every listed path is the base joined with one `NNNN-NN` name. */
  lemma DateDirsShape(base: Path, es: seq<Entry>, p: Path)
    requires p in DateDirs(base, es)
    ensures |p| == |base| + 1 && base <= p && IsDateDirName(p[|base|])
  {
    var i := DateDirsSource(base, es, p);
    assert p[..|base|] == base;
  }

  /** A path is listed exactly when some directory entry with a month name produces it. */
  lemma DateDirsMembership(base: Path, es: seq<Entry>, p: Path)
    ensures p in DateDirs(base, es) <==>
      exists i :: 0 <= i < |es| && IsDateDirEntry(es[i]) && p == base + [es[i].name]
  {
    if p in DateDirs(base, es) {
      var i := DateDirsSource(base, es, p);
    }
    if exists i :: 0 <= i < |es| && IsDateDirEntry(es[i]) && p == base + [es[i].name] {
      var i :| 0 <= i < |es| && IsDateDirEntry(es[i]) && p == base + [es[i].name];
      DateDirsListed(base, es, i);
    }
  }

  /**
   * In a listing with distinct names, every path returned names a directory
   * of the listing.
   */
  lemma DateSubdirsAreDirectories(root: Node, base: Path, p: Path)
    requires Lookup(root, base).Some? && Lookup(root, base).value.Directory?
    requires DistinctNames(Lookup(root, base).value.entries)
    requires p in GetDateSubdirs(root, base)
    ensures Lookup(root, p).Some? && Lookup(root, p).value.Directory?
  {
    var es := Lookup(root, base).value.entries;
    var i := DateDirsSource(base, es, p);
    LookupConcat(root, base, [es[i].name]);
    var k := FindEntry(es, es[i].name).value;
    assert k == i;
  }
}
