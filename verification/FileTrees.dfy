/** Directory trees of plain files, as the archive and collection code sees them. */
module FileTrees {
  import opened GoPaths
  import opened Unicode

  datatype Entry = Folder | File(data: Bytes)

  /** What is below a directory, by path relative to it; the directory itself is `[]`. */
  type Tree = map<Segments, Entry>

  const EMPTY_DIR: Tree := map[[] := Folder]

  function Parent(p: Segments): Segments { if p == [] then [] else p[..|p| - 1] }

  /** A tree a file system can hold. */
  ghost predicate WellFormed(t: Tree) {
    && [] in t && t[[]] == Folder
    && forall p | p in t :: AllNames(p) && Parent(p) in t && (p != [] ==> t[Parent(p)] == Folder)
  }

  /** `q` is `p` or a directory above it. */
  predicate Above(q: Segments, p: Segments) { q <= p }

  lemma AboveParent(q: Segments, p: Segments)
    ensures Above(q, p) <==> q == p || (p != [] && Above(q, Parent(p)))
    ensures Above(q, p) && q != [] ==> Above(Parent(q), p)
  {
    if Above(q, p) && q != p { assert q == Parent(p)[..|q|]; }
    if p != [] && Above(q, Parent(p)) { assert q == p[..|q|]; }
    if Above(q, p) && q != [] { assert Parent(q) == p[..|q| - 1]; }
  }

  lemma AboveTransitive(r: Segments, q: Segments, p: Segments)
    requires Above(r, q) && Above(q, p)
    ensures Above(r, p)
  {
    assert r == p[..|r|];
  }

  lemma {:induction false} AboveIsFolder(t: Tree, q: Segments, p: Segments)
    requires WellFormed(t) && p in t && Above(q, p)
    ensures q in t && (q != p ==> t[q] == Folder)
    decreases |p|
  {
    AboveParent(q, p);
    if q != p {
      AboveIsFolder(t, q, Parent(p));
    }
  }

  // ----- making directories and writing files -----

  /** Some element of the path is a regular file. */
  ghost predicate Blocked(t: Tree, p: Segments) {
    exists q :: Above(q, p) && q in t && t[q].File?
  }

  predicate IsBlocked(t: Tree, p: Segments)
    ensures IsBlocked(t, p) <==> Blocked(t, p)
    decreases |p|
  {
    AboveParent(p, p);
    assert forall q :: Above(q, p) <==> q == p || (p != [] && Above(q, Parent(p))) by {
      forall q ensures Above(q, p) <==> q == p || (p != [] && Above(q, Parent(p))) { AboveParent(q, p); }
    }
    (p in t && t[p].File?) || (p != [] && IsBlocked(t, Parent(p)))
  }

  /** Every missing directory on the way to `p`, and `p` itself. */
  function WithDirs(t: Tree, p: Segments): (r: Tree)
    ensures forall q :: q in r <==> q in t || Above(q, p)
    ensures forall q | q in r :: r[q] == if q in t then t[q] else Folder
    decreases |p|
  {
    var up := if p == [] then t else WithDirs(t, Parent(p));
    assert forall q :: Above(q, p) <==> q == p || (p != [] && Above(q, Parent(p))) by {
      forall q
        ensures Above(q, p) <==> q == p || (p != [] && Above(q, Parent(p)))
      {
        AboveParent(q, p);
      }
    }
    if p in up then up else up[p := Folder]
  }

  /** A file system directory that the code changes in place.  `faulted` records whether
      the operating system has failed some call for a reason of its own, `written` how many
      bytes of contents have been written. */
  class Disk {
    var tree: Tree
    ghost var faulted: bool
    ghost var written: nat

    constructor (tree: Tree)
      ensures this.tree == tree && !faulted && written == 0
    {
      this.tree := tree;
      faulted, written := false, 0;
    }

    /** `os.MkdirAll`.  A failed call may have made some of the directories. */
    method MkdirAll(p: Segments) returns (ok: bool)
      modifies this`tree, this`faulted
      ensures old(faulted) ==> faulted
      ensures ok ==> !Blocked(old(tree), p) && tree == WithDirs(old(tree), p) && faulted == old(faulted)
      ensures !ok ==> tree == old(tree) ||
                      exists q :: Above(q, p) && tree == WithDirs(old(tree), q) && !Blocked(old(tree), q)
      ensures !ok && !faulted ==> Blocked(old(tree), p)
    {
      for k := 0 to |p| + 1
        invariant tree == old(tree) && faulted == old(faulted)
        invariant forall q | Above(q, p) && |q| < k :: !(q in tree && tree[q].File?)
      {
        if p[..k] in tree && tree[p[..k]].File? {
          assert Above(p[..k], p);
          return false;
        }
        assert forall q | Above(q, p) && |q| == k :: q == p[..k];
      }
      var fault: bool := *;
      if fault {
        faulted := true;
        var partly: bool := *;
        if partly {
          var made :| 0 <= made <= |p|;
          var q := p[..made];
          assert Above(q, p);
          forall x | Above(x, q) ensures Above(x, p) { AboveTransitive(x, q, p); }
          tree := WithDirs(tree, q);
        }
        return false;
      }
      tree := WithDirs(tree, p);
      ok := true;
    }

    /** Creates or truncates the file `p` in an existing directory and writes `data`.  A
        failed call may have left a shorter file. */
    method WriteFile(p: Segments, data: Bytes) returns (ok: bool)
      modifies this
      ensures old(faulted) ==> faulted
      ensures ok ==> Writable(old(tree), p) && tree == old(tree)[p := File(data)] && faulted == old(faulted)
      ensures !ok && !faulted ==> !Writable(old(tree), p)
      ensures !ok ==> tree == old(tree) || exists n: nat :: n <= |data| && tree == old(tree)[p := File(data[..n])]
      ensures old(written) <= written <= old(written) + |data| && (ok ==> written == old(written) + |data|)
    {
      if !Writable(tree, p) {
        return false;
      }
      var fault: bool := *;
      if fault {
        faulted := true;
        var created: bool := *;
        if created {
          var n :| 0 <= n <= |data|;
          tree := tree[p := File(data[..n])];
          written := written + n;
        }
        return false;
      }
      tree := tree[p := File(data)];
      written := written + |data|;
      ok := true;
    }
  }

  predicate Writable(t: Tree, p: Segments) {
    p != [] && (p in t ==> t[p].File?) && Parent(p) in t && t[Parent(p)] == Folder
  }

  /** `filepath.Walk`: every path at or below `root` once.  The order of siblings is left open. */
  method Walk(t: Tree, root: Segments) returns (paths: seq<Segments>)
    ensures Enumerates(paths, set p | p in t && Above(root, p))
  {
    paths := [];
    var left := set p | p in t && Above(root, p);
    ghost var all := left;
    while left != {}
      invariant left <= all && Enumerates(paths, all - left)
      decreases left
    {
      var p :| p in left;
      left := left - {p};
      assert all - left == (all - left - {p}) + {p};
      paths := paths + [p];
    }
    assert all - left == all;
  }

  ghost function Elements<T>(s: seq<T>): set<T> { set x | x in s }

  ghost predicate Enumerates<T(!new)>(s: seq<T>, elements: set<T>) {
    && (forall x :: x in s <==> x in elements)
    && forall i, j | 0 <= i < j < |s| :: s[i] != s[j]
  }
}
