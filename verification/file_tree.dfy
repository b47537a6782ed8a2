/**
 * The filesystem as the cleaner sees it through `fs.existsSync`, `readdirSync`
 * (with file types), `statSync`, `unlinkSync` and `rmdirSync`: a tree whose
 * directories list their entries in `readdir` order. A path is the list of its
 * components, so `path.join(a, b)` is `a + b`.
 */
module FileTree {
  import opened Wrappers

  type Path = seq<string>

  /**
   * A regular file (size in bytes, modification time in ms, and whether
   * unlinking it throws), a directory, or any other entry (socket, FIFO,
   * device) that is neither `isFile()` nor `isDirectory()`.
   */
  datatype Node =
    | RegularFile(size: nat, mtime: int, locked: bool)
    | Directory(entries: seq<Entry>)
    | Special

  datatype Entry = Entry(name: string, node: Node)

  /** Index of the first entry called `name`. */
  function FindEntry(es: seq<Entry>, name: string): (r: Option<nat>)
    ensures r.Some? ==> r.value < |es| && es[r.value].name == name
    ensures r.Some? ==> forall j :: 0 <= j < r.value ==> es[j].name != name
    ensures r.None? ==> forall j :: 0 <= j < |es| ==> es[j].name != name
  {
    FindFrom(es, name, 0)
  }

  function FindFrom(es: seq<Entry>, name: string, k: nat): (r: Option<nat>)
    requires k <= |es|
    requires forall j :: 0 <= j < k ==> es[j].name != name
    ensures r.Some? ==> k <= r.value < |es| && es[r.value].name == name
    ensures r.Some? ==> forall j :: 0 <= j < r.value ==> es[j].name != name
    ensures r.None? ==> forall j :: 0 <= j < |es| ==> es[j].name != name
    decreases |es| - k
  {
    if k == |es| then None
    else if es[k].name == name then Some(k)
    else FindFrom(es, name, k + 1)
  }

  /** The node a path names, if any (`fs.existsSync` is `Lookup(..).Some?`). */
  function Lookup(n: Node, p: Path): Option<Node>
    decreases |p|
  {
    if p == [] then Some(n)
    else match n
      case Directory(es) =>
        (match FindEntry(es, p[0])
         case None => None
         case Some(i) => Lookup(es[i].node, p[1..]))
      case _ => None
  }

  /** Entry names are unique in a directory listing of a real filesystem. */
  predicate DistinctNames(es: seq<Entry>) {
    forall i, j :: 0 <= i < j < |es| ==> es[i].name != es[j].name
  }

  predicate Exists(root: Node, p: Path) {
    Lookup(root, p).Some?
  }

  /** The tree with the node at `p` replaced by `m`; unchanged when `p` names nothing. */
  function ReplaceAt(n: Node, p: Path, m: Node): Node
    decreases |p|
  {
    if p == [] then m
    else match n
      case Directory(es) =>
        (match FindEntry(es, p[0])
         case None => n
         case Some(i) => Directory(es[i := Entry(es[i].name, ReplaceAt(es[i].node, p[1..], m))]))
      case _ => n
  }

  lemma FindEntrySameNames(es: seq<Entry>, es': seq<Entry>, name: string)
    requires |es| == |es'|
    requires forall k :: 0 <= k < |es| ==> es[k].name == es'[k].name
    ensures FindEntry(es, name) == FindEntry(es', name)
  {
    var r, r' := FindEntry(es, name), FindEntry(es', name);
    if r.Some? {
      assert es'[r.value].name == name;
    }
  }

  /** After replacing the node at an existing path, that path names the new node. */
  lemma {:induction false} LookupReplaced(n: Node, p: Path, m: Node)
    requires Exists(n, p)
    ensures Lookup(ReplaceAt(n, p, m), p) == Some(m)
    decreases |p|
  {
    if p != [] {
      var es := n.entries;
      var i := FindEntry(es, p[0]).value;
      var es' := es[i := Entry(es[i].name, ReplaceAt(es[i].node, p[1..], m))];
      FindEntrySameNames(es, es', p[0]);
      LookupReplaced(es[i].node, p[1..], m);
    }
  }

  /**
   * Replacing the node at `p` changes nothing at a path `q` that is neither
   * inside `p` nor one of its ancestors.
   */
  lemma {:induction false} LookupReplacedElsewhere(n: Node, p: Path, m: Node, q: Path)
    requires !(p <= q) && !(q <= p)
    ensures Lookup(ReplaceAt(n, p, m), q) == Lookup(n, q)
    decreases |p|
  {
    assert p != [] && q != [];
    match n
    case Directory(es) =>
      var fi := FindEntry(es, p[0]);
      if fi.Some? {
        var i := fi.value;
        var es' := es[i := Entry(es[i].name, ReplaceAt(es[i].node, p[1..], m))];
        FindEntrySameNames(es, es', q[0]);
        if p[0] == q[0] {
          assert !(p[1..] <= q[1..]) && !(q[1..] <= p[1..]);
          LookupReplacedElsewhere(es[i].node, p[1..], m, q[1..]);
        }
      }
    case _ =>
  }

  /** Nothing can be found below something that is not a directory. */
  lemma {:induction false} LookupBelowNonDirectory(n: Node, q: Path, d: Path)
    requires Lookup(n, q).Some? && !Lookup(n, q).value.Directory?
    requires q < d
    ensures Lookup(n, d).None?
    decreases |q|
  {
    if q != [] {
      var i := FindEntry(n.entries, q[0]).value;
      assert d[0] == q[0];
      LookupBelowNonDirectory(n.entries[i].node, q[1..], d[1..]);
    }
  }

  /** Looking up `p + q` is looking up `q` from wherever `p` leads. */
  lemma {:induction false} LookupConcat(n: Node, p: Path, q: Path)
    ensures Lookup(n, p + q) == match Lookup(n, p) case None => None case Some(m) => Lookup(m, q)
    decreases |p|
  {
    if p == [] {
      assert p + q == q;
    } else {
      assert (p + q)[0] == p[0] && (p + q)[1..] == p[1..] + q;
      if n.Directory? {
        var fi := FindEntry(n.entries, p[0]);
        if fi.Some? {
          LookupConcat(n.entries[fi.value].node, p[1..], q);
        }
      }
    }
  }

  /** Two prefixes of the same path are prefixes of one another. */
  lemma PrefixesComparable(a: Path, b: Path, d: Path)
    requires b <= d
    ensures a <= d ==> a <= b || b <= a
  {
    if a <= d {
      if |a| <= |b| {
        assert b[..|a|] == d[..|a|] == a;
      } else {
        assert a[..|b|] == d[..|b|] == b;
      }
    }
  }

  /** Being a prefix is transitive. */
  lemma PrefixTransitive(a: Path, b: Path, c: Path)
    requires a <= b
    ensures b <= c ==> a <= c
  {
    if b <= c {
      assert c[..|a|] == b[..|a|] == a;
    }
  }

  /** Putting back the node that is already at a path changes nothing. */
  lemma {:induction false} ReplaceWithSame(n: Node, p: Path, m: Node)
    requires Lookup(n, p) == Some(m)
    ensures ReplaceAt(n, p, m) == n
    decreases |p|
  {
    if p != [] {
      var es := n.entries;
      var i := FindEntry(es, p[0]).value;
      ReplaceWithSame(es[i].node, p[1..], m);
      assert es[i := Entry(es[i].name, es[i].node)] == es;
    }
  }

  /** The filesystem the process sees; the cleaner changes it in place. */
  class Disk {
    var root: Node

    constructor (root: Node)
      ensures this.root == root
    {
      this.root := root;
    }
  }
}
