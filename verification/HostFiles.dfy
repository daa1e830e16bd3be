/** The host's workspace directories, changed one system call at a time. */
module HostFiles {
  import opened Wrappers
  import opened GoPaths
  import opened FileTrees

  /** Directories by absolute path; none of them lies inside another. */
  type Dirs = map<string, Tree>

  function At(dirs: Dirs, path: string): Tree { if path in dirs then dirs[path] else map[] }

  function Look(dirs: Dirs, path: string): Option<Tree> { if path in dirs then Some(dirs[path]) else None }

  ghost predicate IsPart(part: Tree, whole: Tree) {
    forall q | q in part :: q in whole && part[q] == whole[q]
  }

  /** Nothing but the directory `path` is different. */
  predicate OnlyAt(before: Dirs, after: Dirs, path: string) {
    || after == before || after == before - {path}
    || (path in after && after == before[path := after[path]])
  }

  lemma OnlyAtPut(a: Dirs, b: Dirs, path: string, tree: Tree)
    requires OnlyAt(a, b, path)
    ensures b[path := tree] == a[path := tree] && OnlyAt(a, b[path := tree], path)
  {
  }

  lemma OnlyAtTransitive(a: Dirs, b: Dirs, c: Dirs, path: string)
    requires OnlyAt(a, b, path) && OnlyAt(b, c, path)
    ensures OnlyAt(a, c, path)
  {
    if c == b - {path} {
      assert c == a - {path};
    } else if c != b {
      OnlyAtPut(a, b, path, c[path]);
    }
  }

  lemma OnlyAtRemoved(a: Dirs, b: Dirs, path: string)
    requires OnlyAt(a, b, path)
    ensures b - {path} == a - {path}
    ensures path !in a ==> b - {path} == a
  {
  }

  /** Every state of the host from the step `start` on satisfies `OnlyAt`. */
  ghost predicate OnlyAtSince(before: Dirs, history: seq<Dirs>, start: nat, path: string) {
    forall k | start <= k < |history| :: OnlyAt(before, history[k], path)
  }

  lemma OnlyAtSinceFrom(a: Dirs, b: Dirs, history: seq<Dirs>, start: nat, mid: nat, path: string)
    requires start <= mid <= |history| && OnlyAt(a, b, path)
    requires OnlyAtSince(a, history[..mid], start, path) && OnlyAtSince(b, history, mid, path)
    ensures OnlyAtSince(a, history, start, path)
  {
    forall k | start <= k < |history|
      ensures OnlyAt(a, history[k], path)
    {
      if k < mid {
        assert history[..mid][k] == history[k];
      } else {
        OnlyAtTransitive(a, b, history[k], path);
      }
    }
  }

  /** The directories above an absolute path. */
  function Ancestors(path: string): set<string> {
    var segs := CleanSegments(path);
    set i | 0 <= i < |segs| :: AbsText(segs[..i])
  }

  datatype StatResult = Exists | NotExist | StatFailed

  /** Every method is one system call and may fail for a reason of the operating system's
      own, which `faulted` records.  `history` holds the state after each call. */
  class Host {
    var dirs: Dirs
    /** The existing directories that the others lie in. */
    var parents: set<string>
    ghost var history: seq<Dirs>
    ghost var faulted: bool

    constructor (dirs: Dirs, parents: set<string>)
      ensures this.dirs == dirs && this.parents == parents && history == [dirs] && !faulted
    {
      this.dirs, this.parents := dirs, parents;
      history := [dirs];
      faulted := false;
    }

    method Stat(path: string) returns (r: StatResult)
      modifies this`faulted
      ensures old(faulted) ==> faulted
      ensures r == Exists ==> path in dirs
      ensures r == NotExist ==> path !in dirs
      ensures r == StatFailed ==> faulted
      ensures r != StatFailed ==> faulted == old(faulted)
    {
      var fault: bool := *;
      if fault {
        faulted := true;
        return StatFailed;
      }
      r := if path in dirs then Exists else NotExist;
    }

    /** `os.Rename` of a directory. */
    method Rename(from: string, to: string) returns (ok: bool)
      requires from != to
      modifies this`dirs, this`history, this`faulted
      ensures old(faulted) ==> faulted
      ensures history == old(history) + [dirs]
      ensures ok ==> CanRename(old(dirs), from, to) && dirs == Renamed(old(dirs), from, to) && faulted == old(faulted)
      ensures !ok ==> dirs == old(dirs)
      ensures !ok && !faulted ==> !CanRename(old(dirs), from, to)
    {
      var fault: bool := *;
      if fault {
        faulted := true;
      }
      ok := !fault && CanRename(dirs, from, to);
      if ok {
        dirs := Renamed(dirs, from, to);
      }
      history := history + [dirs];
    }

    /** `os.RemoveAll`.  A failed call may have removed part of the tree. */
    method RemoveAll(path: string) returns (ok: bool)
      modifies this`dirs, this`history, this`faulted
      ensures old(faulted) ==> faulted
      ensures history == old(history) + [dirs]
      ensures ok ==> dirs == old(dirs) - {path} && faulted == old(faulted)
      ensures !ok ==>
                && faulted && path in old(dirs) && path in dirs && dirs == old(dirs)[path := dirs[path]]
                && IsPart(dirs[path], old(dirs)[path])
    {
      var fault: bool := *;
      if fault && path in dirs {
        faulted := true;
        var removed: set<Segments> := *;
        dirs := dirs[path := dirs[path] - removed];
        ok := false;
      } else {
        dirs := dirs - {path};
        ok := true;
      }
      history := history + [dirs];
    }

    /** `os.MkdirTemp`, with the name it chooses: it does not make the parent. */
    method MkdirTemp(path: string) returns (ok: bool)
      modifies this`dirs, this`history, this`faulted
      ensures old(faulted) ==> faulted
      ensures history == old(history) + [dirs]
      ensures ok ==> Dir(path) in parents && dirs == old(dirs)[path := EMPTY_DIR] && faulted == old(faulted)
      ensures !ok ==> dirs == old(dirs) && (faulted || Dir(path) !in parents)
    {
      if Dir(path) in parents {
        ok := Put(path, EMPTY_DIR);
      } else {
        ok := false;
        history := history + [dirs];
      }
    }

    /** Replaces the tree of a directory that the caller has just made. */
    method Put(path: string, tree: Tree) returns (ok: bool)
      modifies this`dirs, this`history, this`faulted
      ensures old(faulted) ==> faulted
      ensures history == old(history) + [dirs]
      ensures ok ==> dirs == old(dirs)[path := tree] && faulted == old(faulted)
      ensures !ok ==> faulted && dirs == old(dirs)
    {
      var fault: bool := *;
      if fault {
        faulted := true;
      } else {
        dirs := dirs[path := tree];
      }
      ok := !fault;
      history := history + [dirs];
    }

    /** `os.MkdirAll` and `os.Chmod` of `rel` below `path`. */
    method MkdirAll(path: string, rel: Segments) returns (ok: bool)
      modifies this
      ensures old(faulted) ==> faulted
      ensures history == old(history) + [dirs]
      ensures ok ==> !Blocked(At(old(dirs), path), rel) && faulted == old(faulted)
      ensures ok ==> dirs == old(dirs)[path := WithDirs(At(old(dirs), path), rel)]
      ensures !ok && !faulted ==> Blocked(At(old(dirs), path), rel)
      ensures old(parents) <= parents <= old(parents) + Ancestors(path) && (ok ==> Ancestors(path) <= parents)
      ensures !ok ==> dirs == old(dirs) || exists q ::
                && Above(q, rel) && !Blocked(At(old(dirs), path), q)
                && dirs == old(dirs)[path := WithDirs(At(old(dirs), path), q)]
    {
      var disk := new Disk(At(dirs, path));
      ok := disk.MkdirAll(rel);
      faulted := faulted || disk.faulted;
      if ok || disk.tree != At(dirs, path) {
        parents := parents + Ancestors(path);
        dirs := dirs[path := disk.tree];
      }
      history := history + [dirs];
    }
  }

  predicate CanRename(dirs: Dirs, from: string, to: string) {
    from in dirs && (to in dirs ==> dirs[to] == EMPTY_DIR)
  }

  function Renamed(dirs: Dirs, from: string, to: string): Dirs
    requires from in dirs
  {
    (dirs - {from})[to := dirs[from]]
  }
}
