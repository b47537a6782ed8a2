/**
 * The two recursive directory walkers of the cleaner service: `cleanDirectory`,
 * which unlinks every file older than the retention window and removes the
 * subdirectories it leaves empty, and `getDirStatsWithFilter`, which only
 * counts. Both fold over a listing in `readdir` order; each is a recursive
 * method with a loop, proved equal to a specification function, and the
 * specification functions are related by lemmas to the flat list of files
 * under the directory.
 */
module DirectoryWalkers {
  import opened Wrappers
  import opened FileTree
  import opened Types
  import opened Time

  /** What the age rule and the counters see of a regular file. */
  datatype FileInfo = FileInfo(size: nat, mtime: int, locked: bool)

  /** The age rule of both walkers: strictly older than the window. */
  predicate Aged(f: FileInfo, now: int, retainMs: int) {
    now - f.mtime > retainMs
  }

  /** The regular files under a listing, depth first, in listing order. */
  function Files(es: seq<Entry>): seq<FileInfo>
    decreases es
  {
    if es == [] then []
    else
      var e := es[|es| - 1];
      Files(es[..|es| - 1]) +
        match e.node
        case RegularFile(size, mtime, locked) => [FileInfo(size, mtime, locked)]
        case Directory(sub) => Files(sub)
        case Special => []
  }

  function Filter(fs: seq<FileInfo>, keep: FileInfo -> bool): seq<FileInfo> {
    if fs == [] then []
    else Filter(fs[..|fs| - 1], keep) + (if keep(fs[|fs| - 1]) then [fs[|fs| - 1]] else [])
  }

  function TotalSize(fs: seq<FileInfo>): nat {
    if fs == [] then 0 else TotalSize(fs[..|fs| - 1]) + fs[|fs| - 1].size
  }

  /** Files a clean leaves in place: young enough, or their unlink throws. */
  function KeepRule(now: int, retainMs: int): FileInfo -> bool {
    f => !Aged(f, now, retainMs) || f.locked
  }

  /** Files a clean unlinks and counts. */
  function DeleteRule(now: int, retainMs: int): FileInfo -> bool {
    f => Aged(f, now, retainMs) && !f.locked
  }

  /** Files whose size a clean adds to its byte counter (before it tries the unlink). */
  function AgedRule(now: int, retainMs: int): FileInfo -> bool {
    f => Aged(f, now, retainMs)
  }

  /** Files a clean counts in bytes but fails to unlink. */
  function LockedAgedRule(now: int, retainMs: int): FileInfo -> bool {
    f => Aged(f, now, retainMs) && f.locked
  }

  /** Files the statistics walker counts: all of them when `retainMs <= 0`. */
  function CountRule(now: int, retainMs: int): FileInfo -> bool {
    f => retainMs <= 0 || Aged(f, now, retainMs)
  }

  /** What a clean of one listing leaves and reports. */
  datatype CleanOut = CleanOut(kept: seq<Entry>, files: nat, size: nat)

  /**
   * `cleanDirectory` on a listing: an aged file adds its size, then is unlinked
   * and counted unless the unlink throws; a subdirectory is cleaned and removed
   * if nothing is left in it; anything else is skipped.
   */
  function CleanEntries(es: seq<Entry>, now: int, retainMs: int): CleanOut
    decreases es
  {
    if es == [] then CleanOut([], 0, 0)
    else
      var r := CleanEntries(es[..|es| - 1], now, retainMs);
      var e := es[|es| - 1];
      match e.node
      case RegularFile(size, mtime, locked) =>
        if now - mtime > retainMs then
          if locked then CleanOut(r.kept + [e], r.files, r.size + size)
          else CleanOut(r.kept, r.files + 1, r.size + size)
        else CleanOut(r.kept + [e], r.files, r.size)
      case Directory(sub) =>
        var s := CleanEntries(sub, now, retainMs);
        CleanOut(r.kept + (if s.kept == [] then [] else [Entry(e.name, Directory(s.kept))]),
                 r.files + s.files, r.size + s.size)
      case Special => CleanOut(r.kept + [e], r.files, r.size)
  }

  /** `getDirStatsWithFilter` on a listing. */
  function StatsEntries(es: seq<Entry>, now: int, retainMs: int): Counts
    decreases es
  {
    if es == [] then Zero
    else
      var r := StatsEntries(es[..|es| - 1], now, retainMs);
      match es[|es| - 1].node
      case RegularFile(size, mtime, _) =>
        if retainMs <= 0 || now - mtime > retainMs then r.Plus(Counts(1, size)) else r
      case Directory(sub) => r.Plus(StatsEntries(sub, now, retainMs))
      case Special => r
  }

  /** The walk of `cleanDirectory` over one listing, building what remains of it. */
  method CleanListing(es: seq<Entry>, now: int, retainMs: int) returns (kept: seq<Entry>, files: nat, size: nat)
    ensures CleanOut(kept, files, size) == CleanEntries(es, now, retainMs)
    decreases es
  {
    kept, files, size := [], 0, 0;
    var i := 0;
    while i < |es|
      invariant 0 <= i <= |es|
      invariant CleanOut(kept, files, size) == CleanEntries(es[..i], now, retainMs)
    {
      var e := es[i];
      assert es[..i + 1][..i] == es[..i];
      match e.node {
        case RegularFile(fileSize, mtime, locked) =>
          if now - mtime > retainMs {
            size := size + fileSize;
            if locked {
              // the unlink throws; the walker logs it and goes on
              kept := kept + [e];
            } else {
              files := files + 1;
            }
          } else {
            kept := kept + [e];
          }
        case Directory(sub) =>
          var subKept, subFiles, subSize := CleanListing(sub, now, retainMs);
          files, size := files + subFiles, size + subSize;
          if subKept != [] {
            kept := kept + [Entry(e.name, Directory(subKept))];
          }
        case Special =>
          kept := kept + [e];
      }
      i := i + 1;
    }
    assert es[..|es|] == es;
  }

  /** The walk of `getDirStatsWithFilter` over one listing. */
  method StatsListing(es: seq<Entry>, now: int, retainMs: int) returns (c: Counts)
    ensures c == StatsEntries(es, now, retainMs)
    decreases es
  {
    c := Zero;
    var i := 0;
    while i < |es|
      invariant 0 <= i <= |es|
      invariant c == StatsEntries(es[..i], now, retainMs)
    {
      assert es[..i + 1][..i] == es[..i];
      match es[i].node {
        case RegularFile(fileSize, mtime, _) =>
          if retainMs <= 0 || now - mtime > retainMs {
            c := c.Plus(Counts(1, fileSize));
          }
        case Directory(sub) =>
          var sub' := StatsListing(sub, now, retainMs);
          c := c.Plus(sub');
        case Special =>
      }
      i := i + 1;
    }
    assert es[..|es|] == es;
  }

  // ---------------------------------------------------------------------------
  // The walkers against the flat list of files

  lemma FilterSnoc(x: seq<FileInfo>, f: FileInfo, keep: FileInfo -> bool)
    ensures Filter(x + [f], keep) == Filter(x, keep) + (if keep(f) then [f] else [])
  {
    assert (x + [f])[..|x|] == x;
  }

  lemma TotalSizeSnoc(x: seq<FileInfo>, f: FileInfo)
    ensures TotalSize(x + [f]) == TotalSize(x) + f.size
  {
    assert (x + [f])[..|x|] == x;
  }

  lemma FilesSnoc(init: seq<Entry>, e: Entry)
    ensures Files(init + [e]) == Files(init) +
      match e.node
      case RegularFile(size, mtime, locked) => [FileInfo(size, mtime, locked)]
      case Directory(sub) => Files(sub)
      case Special => []
  {
    assert (init + [e])[..|init|] == init;
  }

  lemma {:induction false} FilterConcat(x: seq<FileInfo>, y: seq<FileInfo>, keep: FileInfo -> bool)
    ensures Filter(x + y, keep) == Filter(x, keep) + Filter(y, keep)
    decreases |y|
  {
    if y == [] {
      assert x + y == x;
    } else {
      var y', l := y[..|y| - 1], y[|y| - 1];
      assert x + y == (x + y') + [l];
      FilterSnoc(x + y', l, keep);
      FilterConcat(x, y', keep);
    }
  }

  lemma {:induction false} TotalSizeConcat(x: seq<FileInfo>, y: seq<FileInfo>)
    ensures TotalSize(x + y) == TotalSize(x) + TotalSize(y)
    decreases |y|
  {
    if y == [] {
      assert x + y == x;
    } else {
      var y', l := y[..|y| - 1], y[|y| - 1];
      assert x + y == (x + y') + [l];
      TotalSizeSnoc(x + y', l);
      TotalSizeConcat(x, y');
    }
  }

  lemma {:induction false} FilterKeeps(fs: seq<FileInfo>, keep: FileInfo -> bool)
    ensures forall f :: f in Filter(fs, keep) ==> f in fs && keep(f)
    ensures |Filter(fs, keep)| <= |fs|
  {
    if fs != [] {
      FilterKeeps(fs[..|fs| - 1], keep);
    }
  }

  lemma {:induction false} FilterAgrees(fs: seq<FileInfo>, f: FileInfo -> bool, g: FileInfo -> bool)
    requires forall x :: x in fs ==> f(x) == g(x)
    ensures Filter(fs, f) == Filter(fs, g)
  {
    if fs != [] {
      FilterAgrees(fs[..|fs| - 1], f, g);
    }
  }

  lemma {:induction false} FilterAll(fs: seq<FileInfo>, keep: FileInfo -> bool)
    requires forall x :: x in fs ==> keep(x)
    ensures Filter(fs, keep) == fs
  {
    if fs != [] {
      var init, l := fs[..|fs| - 1], fs[|fs| - 1];
      assert fs == init + [l];
      assert forall x :: x in init ==> x in fs;
      assert keep(l);
      FilterAll(init, keep);
    }
  }

  /**
   * Per file: what is kept plus what is reported equals what was there plus
   * the aged files whose unlink threw; what is unlinked plus what threw is
   * what is aged.
   */
  lemma {:induction false} CleanPartition(fs: seq<FileInfo>, now: int, retainMs: int)
    ensures TotalSize(Filter(fs, KeepRule(now, retainMs))) + TotalSize(Filter(fs, AgedRule(now, retainMs)))
            == TotalSize(fs) + TotalSize(Filter(fs, LockedAgedRule(now, retainMs)))
    ensures |Filter(fs, DeleteRule(now, retainMs))| + |Filter(fs, LockedAgedRule(now, retainMs))|
            == |Filter(fs, AgedRule(now, retainMs))|
  {
    if fs != [] {
      var init, l := fs[..|fs| - 1], fs[|fs| - 1];
      assert fs == init + [l];
      CleanPartition(init, now, retainMs);
      var K, A, L := KeepRule(now, retainMs), AgedRule(now, retainMs), LockedAgedRule(now, retainMs);
      TotalSizeSnoc(init, l);
      if K(l) { TotalSizeSnoc(Filter(init, K), l); } else { assert Filter(init, K) + [] == Filter(init, K); }
      if A(l) { TotalSizeSnoc(Filter(init, A), l); } else { assert Filter(init, A) + [] == Filter(init, A); }
      if L(l) { TotalSizeSnoc(Filter(init, L), l); } else { assert Filter(init, L) + [] == Filter(init, L); }
    }
  }

  /** A clean keeps exactly the files the keep rule admits, in order. */
  lemma {:induction false} CleanKeepsYoungAndLocked(es: seq<Entry>, now: int, retainMs: int)
    ensures Files(CleanEntries(es, now, retainMs).kept) == Filter(Files(es), KeepRule(now, retainMs))
    decreases es
  {
    if es != [] {
      var init, e := es[..|es| - 1], es[|es| - 1];
      assert es == init + [e];
      CleanKeepsYoungAndLocked(init, now, retainMs);
      match e.node
      case RegularFile(_, _, _) => CleanKeepsFile(init, e, now, retainMs);
      case Directory(sub) =>
        CleanKeepsYoungAndLocked(sub, now, retainMs);
        CleanKeepsDirectory(init, e, now, retainMs);
      case Special => CleanKeepsSpecial(init, e, now, retainMs);
    }
  }

  /** `CleanKeepsYoungAndLocked` for a listing that ends with a regular file. */
  lemma CleanKeepsFile(init: seq<Entry>, e: Entry, now: int, retainMs: int)
    requires e.node.RegularFile?
    requires Files(CleanEntries(init, now, retainMs).kept) == Filter(Files(init), KeepRule(now, retainMs))
    ensures Files(CleanEntries(init + [e], now, retainMs).kept) == Filter(Files(init + [e]), KeepRule(now, retainMs))
  {
    var es, r, K := init + [e], CleanEntries(init, now, retainMs), KeepRule(now, retainMs);
    var f := FileInfo(e.node.size, e.node.mtime, e.node.locked);
    assert es[..|es| - 1] == init;
    FilesSnoc(init, e);
    FilterSnoc(Files(init), f, K);
    if K(f) {
      FilesSnoc(r.kept, e);
    }
  }

  /** `CleanKeepsYoungAndLocked` for a listing that ends with a subdirectory. */
  lemma CleanKeepsDirectory(init: seq<Entry>, e: Entry, now: int, retainMs: int)
    requires e.node.Directory?
    requires Files(CleanEntries(init, now, retainMs).kept) == Filter(Files(init), KeepRule(now, retainMs))
    requires Files(CleanEntries(e.node.entries, now, retainMs).kept) ==
      Filter(Files(e.node.entries), KeepRule(now, retainMs))
    ensures Files(CleanEntries(init + [e], now, retainMs).kept) == Filter(Files(init + [e]), KeepRule(now, retainMs))
  {
    var es, r, K := init + [e], CleanEntries(init, now, retainMs), KeepRule(now, retainMs);
    var s := CleanEntries(e.node.entries, now, retainMs);
    assert es[..|es| - 1] == init;
    FilesSnoc(init, e);
    FilterConcat(Files(init), Files(e.node.entries), K);
    if s.kept != [] {
      FilesSnoc(r.kept, Entry(e.name, Directory(s.kept)));
    } else {
      assert r.kept + [] == r.kept;
      assert Filter(Files(init), K) + [] == Filter(Files(init), K);
    }
  }

  /** `CleanKeepsYoungAndLocked` for a listing that ends with a special file. */
  lemma CleanKeepsSpecial(init: seq<Entry>, e: Entry, now: int, retainMs: int)
    requires e.node.Special?
    requires Files(CleanEntries(init, now, retainMs).kept) == Filter(Files(init), KeepRule(now, retainMs))
    ensures Files(CleanEntries(init + [e], now, retainMs).kept) == Filter(Files(init + [e]), KeepRule(now, retainMs))
  {
    var es, r := init + [e], CleanEntries(init, now, retainMs);
    assert es[..|es| - 1] == init;
    FilesSnoc(init, e);
    FilesSnoc(r.kept, e);
    assert Files(r.kept) + [] == Files(r.kept);
    assert Files(init) + [] == Files(init);
  }

  /** A clean counts exactly the aged files whose unlink succeeds. */
  lemma {:induction false} CleanCountsUnlinked(es: seq<Entry>, now: int, retainMs: int)
    ensures CleanEntries(es, now, retainMs).files == |Filter(Files(es), DeleteRule(now, retainMs))|
    decreases es
  {
    if es != [] {
      var init, e := es[..|es| - 1], es[|es| - 1];
      assert es == init + [e];
      CleanCountsUnlinked(init, now, retainMs);
      var D := DeleteRule(now, retainMs);
      FilesSnoc(init, e);
      match e.node
      case RegularFile(size, mtime, locked) =>
        FilterSnoc(Files(init), FileInfo(size, mtime, locked), D);
      case Directory(sub) =>
        CleanCountsUnlinked(sub, now, retainMs);
        FilterConcat(Files(init), Files(sub), D);
      case Special =>
        assert Files(init) + [] == Files(init);
    }
  }

  /** A clean adds the size of every aged file, whether or not its unlink succeeds. */
  lemma {:induction false} CleanSizesAged(es: seq<Entry>, now: int, retainMs: int)
    ensures CleanEntries(es, now, retainMs).size == TotalSize(Filter(Files(es), AgedRule(now, retainMs)))
    decreases es
  {
    if es != [] {
      var init, e := es[..|es| - 1], es[|es| - 1];
      assert es == init + [e];
      CleanSizesAged(init, now, retainMs);
      if e.node.Directory? {
        CleanSizesAged(e.node.entries, now, retainMs);
      }
      CleanSizesStep(init, e, now, retainMs);
    }
  }

  /** One turn of `CleanSizesAged`: a listing extended by one entry. */
  lemma CleanSizesStep(init: seq<Entry>, e: Entry, now: int, retainMs: int)
    requires CleanEntries(init, now, retainMs).size == TotalSize(Filter(Files(init), AgedRule(now, retainMs)))
    requires e.node.Directory? ==>
      CleanEntries(e.node.entries, now, retainMs).size == TotalSize(Filter(Files(e.node.entries), AgedRule(now, retainMs)))
    ensures CleanEntries(init + [e], now, retainMs).size == TotalSize(Filter(Files(init + [e]), AgedRule(now, retainMs)))
  {
    var es, A := init + [e], AgedRule(now, retainMs);
    assert es[..|es| - 1] == init;
    FilesSnoc(init, e);
    match e.node
    case RegularFile(size, mtime, locked) =>
      FilteredSizeSnoc(Files(init), FileInfo(size, mtime, locked), A);
    case Directory(sub) =>
      FilteredSizeConcat(Files(init), Files(sub), A);
    case Special =>
      assert Files(init) + [] == Files(init);
  }

  lemma FilteredSizeSnoc(x: seq<FileInfo>, f: FileInfo, keep: FileInfo -> bool)
    ensures TotalSize(Filter(x + [f], keep)) == TotalSize(Filter(x, keep)) + (if keep(f) then f.size else 0)
    ensures |Filter(x + [f], keep)| == |Filter(x, keep)| + (if keep(f) then 1 else 0)
  {
    FilterSnoc(x, f, keep);
    if keep(f) { TotalSizeSnoc(Filter(x, keep), f); }
    else { assert Filter(x, keep) + [] == Filter(x, keep); }
  }

  lemma FilteredSizeConcat(x: seq<FileInfo>, y: seq<FileInfo>, keep: FileInfo -> bool)
    ensures TotalSize(Filter(x + y, keep)) == TotalSize(Filter(x, keep)) + TotalSize(Filter(y, keep))
    ensures |Filter(x + y, keep)| == |Filter(x, keep)| + |Filter(y, keep)|
  {
    FilterConcat(x, y, keep);
    TotalSizeConcat(Filter(x, keep), Filter(y, keep));
  }

  /**
   * `cleanDirectory` removes exactly the aged files whose unlink succeeds and
   * keeps every other file in order; it counts the removed files and adds
   * the size of every aged file, removed or not.
   */
  lemma CleanRemovesExactlyAgedFiles(es: seq<Entry>, now: int, retainMs: int)
    ensures Files(CleanEntries(es, now, retainMs).kept) == Filter(Files(es), KeepRule(now, retainMs))
    ensures CleanEntries(es, now, retainMs).files == |Filter(Files(es), DeleteRule(now, retainMs))|
    ensures CleanEntries(es, now, retainMs).size == TotalSize(Filter(Files(es), AgedRule(now, retainMs)))
  {
    CleanKeepsYoungAndLocked(es, now, retainMs);
    CleanCountsUnlinked(es, now, retainMs);
    CleanSizesAged(es, now, retainMs);
  }

  /** `getDirStatsWithFilter` counts exactly the files the count rule admits. */
  lemma {:induction false} StatsCountsExactly(es: seq<Entry>, now: int, retainMs: int)
    ensures StatsEntries(es, now, retainMs)
            == Counts(|Filter(Files(es), CountRule(now, retainMs))|, TotalSize(Filter(Files(es), CountRule(now, retainMs))))
    decreases es
  {
    if es != [] {
      var init, e := es[..|es| - 1], es[|es| - 1];
      assert es == init + [e];
      StatsCountsExactly(init, now, retainMs);
      if e.node.Directory? {
        StatsCountsExactly(e.node.entries, now, retainMs);
      }
      StatsCountsStep(init, e, now, retainMs);
    }
  }

  /** One turn of `StatsCountsExactly`: a listing extended by one entry. */
  lemma StatsCountsStep(init: seq<Entry>, e: Entry, now: int, retainMs: int)
    requires StatsEntries(init, now, retainMs)
            == Counts(|Filter(Files(init), CountRule(now, retainMs))|, TotalSize(Filter(Files(init), CountRule(now, retainMs))))
    requires e.node.Directory? ==>
      StatsEntries(e.node.entries, now, retainMs) ==
      Counts(|Filter(Files(e.node.entries), CountRule(now, retainMs))|,
             TotalSize(Filter(Files(e.node.entries), CountRule(now, retainMs))))
    ensures StatsEntries(init + [e], now, retainMs)
            == Counts(|Filter(Files(init + [e]), CountRule(now, retainMs))|, TotalSize(Filter(Files(init + [e]), CountRule(now, retainMs))))
  {
    var es, C := init + [e], CountRule(now, retainMs);
    assert es[..|es| - 1] == init;
    FilesSnoc(init, e);
    match e.node
    case RegularFile(size, mtime, locked) =>
      FilteredSizeSnoc(Files(init), FileInfo(size, mtime, locked), C);
    case Directory(sub) =>
      FilteredSizeConcat(Files(init), Files(sub), C);
    case Special =>
      assert Files(init) + [] == Files(init);
  }

  /** No subdirectory of the listing, at any depth, is empty. */
  predicate Pruned(es: seq<Entry>)
    decreases es
  {
    es == [] ||
      (Pruned(es[..|es| - 1]) &&
       match es[|es| - 1].node
       case Directory(sub) => sub != [] && Pruned(sub)
       case _ => true)
  }

  /** A clean leaves no empty subdirectory behind (the directory itself may be empty). */
  lemma {:induction false} CleanLeavesNoEmptySubdirectory(es: seq<Entry>, now: int, retainMs: int)
    ensures Pruned(CleanEntries(es, now, retainMs).kept)
    decreases es
  {
    if es != [] {
      var init, e := es[..|es| - 1], es[|es| - 1];
      var r := CleanEntries(init, now, retainMs);
      CleanLeavesNoEmptySubdirectory(init, now, retainMs);
      match e.node
      case RegularFile(_, _, _) =>
        assert (r.kept + [e])[..|r.kept|] == r.kept;
      case Directory(sub) =>
        var s := CleanEntries(sub, now, retainMs);
        CleanLeavesNoEmptySubdirectory(sub, now, retainMs);
        if s.kept != [] {
          var d := Entry(e.name, Directory(s.kept));
          assert (r.kept + [d])[..|r.kept|] == r.kept;
        } else {
          assert r.kept + [] == r.kept;
        }
      case Special =>
        assert (r.kept + [e])[..|r.kept|] == r.kept;
    }
  }

  /** A pruned listing whose files all pass the keep rule is a fixed point of the clean. */
  lemma {:induction false} CleanFixedPoint(es: seq<Entry>, now: int, retainMs: int)
    requires Pruned(es)
    requires forall f :: f in Files(es) ==> KeepRule(now, retainMs)(f)
    ensures CleanEntries(es, now, retainMs).kept == es
    ensures CleanEntries(es, now, retainMs).files == 0
    decreases es
  {
    if es != [] {
      var init, e := es[..|es| - 1], es[|es| - 1];
      assert es == init + [e];
      FilesSnoc(init, e);
      CleanFixedPoint(init, now, retainMs);
      match e.node
      case RegularFile(size, mtime, locked) =>
        assert FileInfo(size, mtime, locked) in Files(es);
      case Directory(sub) =>
        CleanFixedPoint(sub, now, retainMs);
      case Special =>
    }
  }

  // ---------------------------------------------------------------------------
  // The walkers on a disk

  /** The files under the directory at `p`; none when `p` is missing or not a directory. */
  function FilesAt(root: Node, p: Path): seq<FileInfo> {
    match Lookup(root, p)
    case Some(Directory(es)) => Files(es)
    case _ => []
  }

  datatype DiskClean = DiskClean(root: Node, counts: Counts)

  /**
   * `cleanDirectory(dirPath, retainDays)` with `retainMs = retainDays * DAY`: a
   * missing path returns zeros, and so does a path that is not a directory
   * (its `readdirSync` throws and is caught).
   */
  function CleanAt(root: Node, dirPath: Path, now: int, retainMs: int): DiskClean {
    match Lookup(root, dirPath)
    case Some(Directory(es)) =>
      var o := CleanEntries(es, now, retainMs);
      DiskClean(ReplaceAt(root, dirPath, Directory(o.kept)), Counts(o.files, o.size))
    case _ => DiskClean(root, Zero)
  }

  /** `getDirStatsWithFilter(dirPath, now, retainMs)`. */
  function StatsAt(root: Node, dirPath: Path, now: int, retainMs: int): Counts {
    match Lookup(root, dirPath)
    case Some(Directory(es)) => StatsEntries(es, now, retainMs)
    case _ => Zero
  }

  /** `cleanDirectory`: deletes in place on the disk. */
  method CleanDirectory(disk: Disk, dirPath: Path, retainDays: int, now: int) returns (c: Counts)
    modifies disk
    ensures DiskClean(disk.root, c) == CleanAt(old(disk.root), dirPath, now, retainDays * DAY)
  {
    var retainMs := retainDays * DAY;
    match Lookup(disk.root, dirPath) {
      case Some(Directory(es)) =>
        var kept, files, size := CleanListing(es, now, retainMs);
        disk.root := ReplaceAt(disk.root, dirPath, Directory(kept));
        c := Counts(files, size);
      case _ =>
        c := Zero;
    }
  }

  /** `getDirStatsWithFilter`: reads the disk and changes nothing. */
  method GetDirStatsWithFilter(disk: Disk, dirPath: Path, now: int, retainMs: int) returns (c: Counts)
    ensures c == StatsAt(disk.root, dirPath, now, retainMs)
    ensures c.files == |Filter(FilesAt(disk.root, dirPath), CountRule(now, retainMs))|
    ensures c.size == TotalSize(Filter(FilesAt(disk.root, dirPath), CountRule(now, retainMs)))
  {
    match Lookup(disk.root, dirPath) {
      case Some(Directory(es)) =>
        c := StatsListing(es, now, retainMs);
        StatsCountsExactly(es, now, retainMs);
      case _ =>
        c := Zero;
    }
  }

  /**
   * The effect of `cleanDirectory` on a disk: a missing or non-directory path
   * changes nothing and reports zeros; otherwise the directory itself
   * survives, holds exactly the files the keep rule admits, in order, with no
   * empty subdirectory, nothing outside it changes, and the counters report
   * the unlinked files and the bytes of all aged files.
   */
  lemma CleanAtEffect(root: Node, dirPath: Path, now: int, retainMs: int, q: Path)
    ensures var r := CleanAt(root, dirPath, now, retainMs);
      && (!Lookup(root, dirPath).Some? || !Lookup(root, dirPath).value.Directory? ==> r == DiskClean(root, Zero))
      && (Lookup(root, dirPath).Some? && Lookup(root, dirPath).value.Directory? ==>
            && Lookup(r.root, dirPath).Some?
            && Lookup(r.root, dirPath).value.Directory?
            && Pruned(Lookup(r.root, dirPath).value.entries)
            && FilesAt(r.root, dirPath) == Filter(FilesAt(root, dirPath), KeepRule(now, retainMs))
            && r.counts.files == |Filter(FilesAt(root, dirPath), DeleteRule(now, retainMs))|
            && r.counts.size == TotalSize(Filter(FilesAt(root, dirPath), AgedRule(now, retainMs)))
            && (!(dirPath <= q) && !(q <= dirPath) ==> Lookup(r.root, q) == Lookup(root, q)))
  {
    match Lookup(root, dirPath)
    case Some(Directory(es)) =>
      var o := CleanEntries(es, now, retainMs);
      LookupReplaced(root, dirPath, Directory(o.kept));
      CleanRemovesExactlyAgedFiles(es, now, retainMs);
      CleanLeavesNoEmptySubdirectory(es, now, retainMs);
      if !(dirPath <= q) && !(q <= dirPath) {
        LookupReplacedElsewhere(root, dirPath, Directory(o.kept), q);
      }
    case _ =>
  }

  /**
   * With the clock fixed, cleaning the same directory a second time unlinks
   * nothing and leaves the disk as the first clean left it; the only bytes it
   * reports are those of aged files whose unlink throws.
   */
  lemma SecondCleanDeletesNothing(root: Node, dirPath: Path, now: int, retainMs: int)
    ensures var first := CleanAt(root, dirPath, now, retainMs);
      var second := CleanAt(first.root, dirPath, now, retainMs);
      && second.counts.files == 0
      && second.root == first.root
      && second.counts.size == TotalSize(Filter(FilesAt(first.root, dirPath), LockedAgedRule(now, retainMs)))
  {
    var first := CleanAt(root, dirPath, now, retainMs);
    match Lookup(root, dirPath)
    case Some(Directory(es)) =>
      var kept := CleanEntries(es, now, retainMs).kept;
      LookupReplaced(root, dirPath, Directory(kept));
      SecondCleanOfListing(es, now, retainMs);
      ReplaceWithSame(first.root, dirPath, Directory(kept));
    case _ =>
      FilterKeeps([], LockedAgedRule(now, retainMs));
  }

  /** `SecondCleanDeletesNothing` on one listing. */
  lemma SecondCleanOfListing(es: seq<Entry>, now: int, retainMs: int)
    ensures var kept := CleanEntries(es, now, retainMs).kept;
      var second := CleanEntries(kept, now, retainMs);
      && second.kept == kept
      && second.files == 0
      && second.size == TotalSize(Filter(Files(kept), LockedAgedRule(now, retainMs)))
  {
    var kept := CleanEntries(es, now, retainMs).kept;
    CleanRemovesExactlyAgedFiles(es, now, retainMs);
    CleanLeavesNoEmptySubdirectory(es, now, retainMs);
    FilterKeeps(Files(es), KeepRule(now, retainMs));
    CleanFixedPoint(kept, now, retainMs);
    CleanSizesAged(kept, now, retainMs);
    FilterAgrees(Files(kept), AgedRule(now, retainMs), LockedAgedRule(now, retainMs));
  }

  /**
   * What a clean reports in bytes is what it freed plus the size of the aged
   * files it failed to unlink; the two agree when every unlink succeeds.
   */
  lemma ReportedBytesVersusFreed(root: Node, dirPath: Path, now: int, retainMs: int)
    ensures var r := CleanAt(root, dirPath, now, retainMs);
      TotalSize(FilesAt(r.root, dirPath)) + r.counts.size
        == TotalSize(FilesAt(root, dirPath)) + TotalSize(Filter(FilesAt(root, dirPath), LockedAgedRule(now, retainMs)))
  {
    CleanAtEffect(root, dirPath, now, retainMs, []);
    CleanPartition(FilesAt(root, dirPath), now, retainMs);
    match Lookup(root, dirPath)
    case Some(Directory(es)) =>
    case _ =>
      FilterKeeps([], LockedAgedRule(now, retainMs));
  }

  /**
   * The estimate the statistics walker gives for a positive window is the
   * clean's byte count, and its file count is the clean's plus the aged files
   * whose unlink would throw. With no window it counts every file.
   */
  lemma EstimateMatchesClean(root: Node, dirPath: Path, now: int, retainMs: int)
    ensures retainMs > 0 ==>
      && StatsAt(root, dirPath, now, retainMs).size == CleanAt(root, dirPath, now, retainMs).counts.size
      && StatsAt(root, dirPath, now, retainMs).files
         == CleanAt(root, dirPath, now, retainMs).counts.files + |Filter(FilesAt(root, dirPath), LockedAgedRule(now, retainMs))|
    ensures retainMs <= 0 ==>
      StatsAt(root, dirPath, now, retainMs) == Counts(|FilesAt(root, dirPath)|, TotalSize(FilesAt(root, dirPath)))
  {
    var fs := FilesAt(root, dirPath);
    match Lookup(root, dirPath)
    case Some(Directory(es)) =>
      StatsCountsExactly(es, now, retainMs);
      CleanRemovesExactlyAgedFiles(es, now, retainMs);
      CleanPartition(fs, now, retainMs);
      if retainMs > 0 {
        FilterAgrees(fs, CountRule(now, retainMs), AgedRule(now, retainMs));
      } else {
        FilterAll(fs, CountRule(now, retainMs));
      }
    case _ =>
      FilterKeeps([], LockedAgedRule(now, retainMs));
  }

  // ---------------------------------------------------------------------------
  // Cleans of several directories

  /** A listing a clean at `now` leaves as it is: no empty subdirectory and only files the keep rule admits. */
  predicate Settled(es: seq<Entry>, now: int, retainMs: int) {
    Pruned(es) && forall f :: f in Files(es) ==> KeepRule(now, retainMs)(f)
  }

  /** The path names a settled directory, or no directory at all. */
  predicate SettledAt(root: Node, p: Path, now: int, retainMs: int) {
    match Lookup(root, p)
    case Some(Directory(es)) => Settled(es, now, retainMs)
    case _ => true
  }

  /** A regular file at `p` that the keep rule admits: inside the window, or its unlink throws. */
  predicate KeptFileAt(root: Node, p: Path, now: int, retainMs: int) {
    match Lookup(root, p)
    case Some(RegularFile(size, mtime, locked)) => KeepRule(now, retainMs)(FileInfo(size, mtime, locked))
    case _ => false
  }

  lemma {:induction false} PrunedEntry(es: seq<Entry>, i: nat)
    requires Pruned(es) && i < |es| && es[i].node.Directory?
    ensures Pruned(es[i].node.entries)
    decreases es
  {
    var init := es[..|es| - 1];
    if i < |init| {
      assert init[i] == es[i];
      PrunedEntry(init, i);
    }
  }

  lemma {:induction false} FilesOfEntry(es: seq<Entry>, i: nat, f: FileInfo)
    requires i < |es| && es[i].node.Directory? && f in Files(es[i].node.entries)
    ensures f in Files(es)
    decreases es
  {
    var init, e := es[..|es| - 1], es[|es| - 1];
    assert es == init + [e];
    FilesSnoc(init, e);
    if i < |init| {
      assert init[i] == es[i];
      FilesOfEntry(init, i, f);
    }
  }

  /** Every directory below a settled directory is settled. */
  lemma {:induction false} SettledBelow(n: Node, p: Path, now: int, retainMs: int)
    requires SettledAt(n, [], now, retainMs)
    ensures SettledAt(n, p, now, retainMs)
    decreases |p|
  {
    if p != [] && n.Directory? {
      var fi := FindEntry(n.entries, p[0]);
      if fi.Some? {
        var m := n.entries[fi.value].node;
        if m.Directory? {
          PrunedEntry(n.entries, fi.value);
          forall f | f in Files(m.entries) ensures KeepRule(now, retainMs)(f) {
            FilesOfEntry(n.entries, fi.value, f);
          }
          SettledBelow(m, p[1..], now, retainMs);
        }
      }
    }
  }

  /** Cleaning `d` leaves `d` settled. */
  lemma CleanSettles(root: Node, d: Path, now: int, retainMs: int)
    ensures SettledAt(CleanAt(root, d, now, retainMs).root, d, now, retainMs)
  {
    match Lookup(root, d)
    case Some(Directory(es)) =>
      var kept := CleanEntries(es, now, retainMs).kept;
      LookupReplaced(root, d, Directory(kept));
      CleanKeepsYoungAndLocked(es, now, retainMs);
      CleanLeavesNoEmptySubdirectory(es, now, retainMs);
      FilterKeeps(Files(es), KeepRule(now, retainMs));
    case _ =>
  }

  /** Cleaning a settled directory changes nothing and unlinks nothing. */
  lemma CleanSettledIsNoop(root: Node, d: Path, now: int, retainMs: int)
    requires SettledAt(root, d, now, retainMs)
    ensures CleanAt(root, d, now, retainMs).root == root
    ensures CleanAt(root, d, now, retainMs).counts.files == 0
  {
    match Lookup(root, d)
    case Some(Directory(es)) =>
      CleanFixedPoint(es, now, retainMs);
      ReplaceWithSame(root, d, Directory(es));
    case _ =>
  }

  /**
   * Cleaning `d` keeps every settled path settled: below `d` everything is
   * settled afterwards, above `d` the clean changes nothing, and elsewhere
   * nothing changes.
   */
  lemma CleanKeepsSettled(root: Node, d: Path, now: int, retainMs: int, q: Path)
    requires SettledAt(root, q, now, retainMs)
    ensures SettledAt(CleanAt(root, d, now, retainMs).root, q, now, retainMs)
  {
    var r := CleanAt(root, d, now, retainMs).root;
    match Lookup(root, d)
    case Some(Directory(es)) =>
      var kept := CleanEntries(es, now, retainMs).kept;
      if d <= q {
        var rest := q[|d|..];
        assert q == d + rest;
        CleanSettles(root, d, now, retainMs);
        LookupReplaced(root, d, Directory(kept));
        LookupConcat(r, d, rest);
        SettledBelow(Directory(kept), rest, now, retainMs);
      } else if q <= d {
        var rest := d[|q|..];
        assert d == q + rest;
        LookupConcat(root, q, rest);
        SettledBelow(Lookup(root, q).value, rest, now, retainMs);
        CleanSettledIsNoop(root, d, now, retainMs);
      } else {
        LookupReplacedElsewhere(root, d, Directory(kept), q);
      }
    case _ =>
  }

  /** What a clean leaves of one entry: nothing, the entry, or the directory with what remains in it. */
  function CleanedEntry(e: Entry, now: int, retainMs: int): seq<Entry> {
    match e.node
    case RegularFile(_, mtime, locked) => if now - mtime > retainMs && !locked then [] else [e]
    case Directory(sub) =>
      var s := CleanEntries(sub, now, retainMs).kept;
      if s == [] then [] else [Entry(e.name, Directory(s))]
    case Special => [e]
  }

  lemma CleanedSnoc(init: seq<Entry>, e: Entry, now: int, retainMs: int)
    ensures CleanEntries(init + [e], now, retainMs).kept == CleanEntries(init, now, retainMs).kept + CleanedEntry(e, now, retainMs)
  {
    assert (init + [e])[..|init|] == init;
  }

  /** A name no entry of a listing has is not in what the clean keeps. */
  lemma {:induction false} CleanedKeepsNoNewName(es: seq<Entry>, name: string, now: int, retainMs: int)
    requires forall k :: 0 <= k < |es| ==> es[k].name != name
    ensures FindEntry(CleanEntries(es, now, retainMs).kept, name).None?
    decreases es
  {
    if es != [] {
      var init, e := es[..|es| - 1], es[|es| - 1];
      assert es == init + [e];
      CleanedKeepsNoNewName(init, name, now, retainMs);
      CleanedSnoc(init, e, now, retainMs);
      var a: seq<Entry>, b: seq<Entry> := CleanEntries(init, now, retainMs).kept, CleanedEntry(e, now, retainMs);
      forall k | 0 <= k < |a + b| ensures (a + b)[k].name != name {
        if k >= |a| {
          assert (a + b)[k] == b[k - |a|];
        }
      }
    }
  }

  /**
   * When the first entry called `name` leaves something behind, the first
   * entry called `name` in what the clean keeps is exactly that.
   */
  lemma {:induction false} CleanedFindsEntry(es: seq<Entry>, name: string, i: nat, now: int, retainMs: int)
    requires FindEntry(es, name) == Some(i) && CleanedEntry(es[i], now, retainMs) != []
    ensures var kept := CleanEntries(es, now, retainMs).kept;
      FindEntry(kept, name).Some? && kept[FindEntry(kept, name).value] == CleanedEntry(es[i], now, retainMs)[0]
    decreases es
  {
    var init, e := es[..|es| - 1], es[|es| - 1];
    assert es == init + [e];
    CleanedSnoc(init, e, now, retainMs);
    var a: seq<Entry>, b: seq<Entry> := CleanEntries(init, now, retainMs).kept, CleanedEntry(e, now, retainMs);
    if i < |init| {
      assert init[i] == es[i];
      assert FindEntry(init, name) == Some(i);
      CleanedFindsEntry(init, name, i, now, retainMs);
      var j := FindEntry(a, name).value;
      assert (a + b)[j] == a[j];
      assert forall k :: 0 <= k < j ==> (a + b)[k] == a[k];
    } else {
      CleanedKeepsNoNewName(init, name, now, retainMs);
      assert (a + b)[|a|] == b[0];
    }
  }

  /** A file the keep rule admits is found at the same path in what the clean keeps. */
  lemma {:induction false} KeptFileInListing(es: seq<Entry>, p: Path, now: int, retainMs: int)
    requires KeptFileAt(Directory(es), p, now, retainMs)
    ensures Lookup(Directory(CleanEntries(es, now, retainMs).kept), p) == Lookup(Directory(es), p)
    decreases |p|
  {
    var i := FindEntry(es, p[0]).value;
    var n := es[i].node;
    var kept := CleanEntries(es, now, retainMs).kept;
    assert Lookup(Directory(es), p) == Lookup(n, p[1..]);
    if n.Directory? {
      KeptFileInListing(n.entries, p[1..], now, retainMs);
      assert CleanEntries(n.entries, now, retainMs).kept != [];
    } else if n.RegularFile? {
      assert p[1..] == [];
    }
    CleanedFindsEntry(es, p[0], i, now, retainMs);
  }

  /** Cleaning any directory leaves a file the keep rule admits where it was. */
  lemma CleanKeepsFileAt(root: Node, d: Path, now: int, retainMs: int, p: Path)
    requires KeptFileAt(root, p, now, retainMs)
    ensures Lookup(CleanAt(root, d, now, retainMs).root, p) == Lookup(root, p)
  {
    var r := CleanAt(root, d, now, retainMs).root;
    if p < d {
      LookupBelowNonDirectory(root, p, d);
    } else if d <= p {
      match Lookup(root, d)
      case Some(Directory(es)) =>
        var kept := CleanEntries(es, now, retainMs).kept;
        var rest := p[|d|..];
        assert p == d + rest;
        LookupConcat(root, d, rest);
        LookupReplaced(root, d, Directory(kept));
        LookupConcat(r, d, rest);
        KeptFileInListing(es, rest, now, retainMs);
      case _ =>
    } else {
      match Lookup(root, d)
      case Some(Directory(es)) =>
        LookupReplacedElsewhere(root, d, Directory(CleanEntries(es, now, retainMs).kept), p);
      case _ =>
    }
  }
}
