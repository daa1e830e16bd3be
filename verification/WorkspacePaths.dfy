/** Where a runtime's workspace lives, and getting the root back from it. */
module WorkspacePaths {
  import opened GoStrings
  import opened GoPaths

  const WORKSPACE_DIR := "sandbox_workspace"

  /** `root` is the working directory when the spec names none. */
  function ResolveWorkspace(cwd: string, pid: string, root: string): string {
    var base := if root == "" then cwd else Abs(cwd, root);
    Clean(base + "/" + WORKSPACE_DIR + "/" + pid)
  }

  function RootFromPath(workspace: string): string { Dir(Dir(workspace)) }

  function TmpDir(workspace: string): string { JoinPath(Dir(workspace), Base(workspace) + "-tmp") }

  /** The directory for temporary files lies beside the workspace. */
  lemma TmpDirBeside(parent: Segments, name: string)
    requires AllNames(parent + [name])
    ensures var workspace := AbsText(parent + [name]);
            TmpDir(workspace) == AbsText(parent + [name + "-tmp"]) && TmpDir(workspace) != workspace
  {
    assert name in parent + [name] && forall seg | seg in parent :: seg in parent + [name];
    JoinBeside(parent, name, name + "-tmp");
    NamesNormal(parent + [name], true);
    NamesNormal(parent + [name + "-tmp"], true);
    assert (parent + [name])[|parent|] == name && (parent + [name + "-tmp"])[|parent|] == name + "-tmp";
    if TmpDir(AbsText(parent + [name])) == AbsText(parent + [name]) {
      TextInjective(parent + [name], parent + [name + "-tmp"], true);
    }
  }

  /** What joining `pid` amounts to, below a directory of any depth. */
  function PidSegments(pid: string): Segments { Reduce([], Split(pid, '/'), false) }

  function Ups(segs: Segments): (n: nat)
    ensures n <= |segs|
  {
    if segs != [] && segs[0] == ".." then 1 + Ups(segs[1..]) else 0
  }

  lemma {:induction false} UpsSplit(segs: Segments)
    requires Normal(segs, false)
    ensures forall i | 0 <= i < Ups(segs) :: segs[i] == ".."
    ensures AllNames(segs[Ups(segs)..])
  {
    if segs != [] && segs[0] == ".." {
      forall seg | seg in segs[1..] ensures seg in segs { }
      UpsSplit(segs[1..]);
      assert segs[1..][Ups(segs[1..])..] == segs[Ups(segs)..];
    } else {
      assert segs[0..] == segs;
      forall i | 0 <= i < |segs|
        ensures IsName(segs[i])
      {
        assert segs[i] in segs;
        assert segs[i] != "..";
      }
    }
  }

  /** `..` removes the last element of a non-empty rooted stack. */
  lemma {:induction false} ReduceDots(stack: Segments, n: nat)
    requires AllNames(stack)
    ensures Reduce(stack, Dots(n), true) == stack[..if n <= |stack| then |stack| - n else 0]
    decreases n
  {
    if n == 0 {
      assert Dots(0) == [] && stack[..|stack|] == stack;
    } else {
      assert Dots(n)[0] == ".." && Dots(n)[1..] == Dots(n - 1);
      if stack == [] {
        ReduceDots(stack, n - 1);
      } else {
        var rest := stack[..|stack| - 1];
        assert stack[|stack| - 1] in stack;
        ReduceDots(rest, n - 1);
        assert n <= |stack| ==> rest[..|rest| - (n - 1)] == stack[..|stack| - n];
      }
    }
  }

  /** The elements of a resolved workspace: `pid`'s leading `..` elements eat into the
      root and the fixed directory name, and its other elements follow. */
  function Resolved(root: Segments, u: Segments): Segments {
    var below := root + [WORKSPACE_DIR];
    var n := Ups(u);
    below[..if n <= |below| then |below| - n else 0] + u[n..]
  }

  lemma ResolveReduces(cwd: string, root: Segments, pid: string)
    requires AllNames(root)
    ensures var r := Reduce(root + [WORKSPACE_DIR], Split(pid, '/'), true);
            ResolveWorkspace(cwd, pid, AbsText(root)) == AbsText(r)
  {
    var base := AbsText(root);
    NamesNormal(root, true);
    TextSegments(root, true);
    var p := base + "/" + WORKSPACE_DIR + "/" + pid;
    assert ResolveWorkspace(cwd, pid, base) == Clean(p);
    JoinReduces(base, WORKSPACE_DIR, pid, root);
  }

  lemma JoinReduces(base: string, dir: string, pid: string, root: Segments)
    requires IsName(dir) && IsAbs(base) && CleanSegments(base) == root
    ensures CleanSegments(base + "/" + dir + "/" + pid) == Reduce(root + [dir], Split(pid, '/'), true)
    ensures IsAbs(base + "/" + dir + "/" + pid)
  {
    assert base + "/" + dir + "/" + pid == (base + ['/'] + dir) + ['/'] + pid;
    SplitConcat(base + ['/'] + dir, pid, '/');
    SplitConcat(base, dir, '/');
    SplitOne(dir, '/');
    ReduceConcat([], Split(base, '/') + [dir], Split(pid, '/'), true);
    ReduceConcat([], Split(base, '/'), [dir], true);
    ReduceOne(root, dir, true);
  }

  lemma ResolveElements(cwd: string, root: Segments, pid: string)
    requires AllNames(root)
    ensures AllNames(Resolved(root, PidSegments(pid)))
    ensures ResolveWorkspace(cwd, pid, AbsText(root)) == AbsText(Resolved(root, PidSegments(pid)))
  {
    var u, below := PidSegments(pid), root + [WORKSPACE_DIR];
    ResolveReduces(cwd, root, pid);
    SplitParts(pid, '/');
    NormalizeFirst(below, Split(pid, '/'));
    ReduceNormal([], Split(pid, '/'), false);
    ReduceNormalForm(below, u);
  }

  lemma ReduceNormalForm(below: Segments, u: Segments)
    requires AllNames(below) && Normal(u, false)
    ensures var n := Ups(u);
            var r := below[..if n <= |below| then |below| - n else 0] + u[n..];
            Reduce(below, u, true) == r && AllNames(r)
  {
    UpsSplit(u);
    assert u == Dots(Ups(u)) + u[Ups(u)..];
    ReduceConcat(below, Dots(Ups(u)), u[Ups(u)..], true);
    ReduceDots(below, Ups(u));
    ReduceNames(Reduce(below, Dots(Ups(u)), true), u[Ups(u)..], true);
  }

  lemma RootOfElements(segs: Segments)
    requires AllNames(segs)
    ensures RootFromPath(AbsText(segs)) == AbsText(segs[..if |segs| >= 2 then |segs| - 2 else 0])
  {
    var parent := if segs == [] then [] else segs[..|segs| - 1];
    DirOfAbs(segs);
    DirOfAbs(parent);
    assert (if parent == [] then [] else parent[..|parent| - 1]) == segs[..if |segs| >= 2 then |segs| - 2 else 0];
  }

  /** `pid` cleans to one element, or to two elements below the parent directory. */
  predicate PidFits(pid: string) {
    var u := PidSegments(pid);
    (|u| == 1 && u[0] != "..") || (|u| == 3 && Ups(u) == 1)
  }

  lemma PidKeepsRoot(cwd: string, root: Segments, pid: string)
    requires AllNames(root) && PidFits(pid)
    ensures RootFromPath(ResolveWorkspace(cwd, pid, AbsText(root))) == AbsText(root)
  {
    var u := PidSegments(pid);
    var r := Resolved(root, u);
    ResolveElements(cwd, root, pid);
    RootOfElements(r);
    assert |r| == |root| + 2 && r[..|root|] == root;
  }

  /** A root that a misshapen pid loses. */
  lemma PidLosesRoot(cwd: string, pid: string) returns (root: Segments)
    requires !PidFits(pid)
    ensures AllNames(root)
    ensures RootFromPath(ResolveWorkspace(cwd, pid, AbsText(root))) != AbsText(root)
  {
    var u := PidSegments(pid);
    var n, m := Ups(u), |u| - Ups(u);
    var name := if m > 0 && u[n] == "x" then "y" else "x";
    root := seq(n + 1, _ => name);
    var r := Resolved(root, u);
    ResolveElements(cwd, root, pid);
    RootOfElements(r);
    var back := r[..|r| - 2];
    assert |r| == 2 + m && |back| == m;
    assert back != root by {
      assert m > n >= 2 ==> back[2] == u[n];
    }
    if AbsText(back) == AbsText(root) {
      NamesNormal(back, true);
      NamesNormal(root, true);
      TextInjective(back, root, true);
    }
  }

  /** Taking the root from a path undoes workspace resolution for every root exactly when
      the process id has that shape; in particular for a single ordinary element. */
  lemma RootRoundTripExact(cwd: string, pid: string)
    ensures PidFits(pid) <==>
            forall root: Segments | AllNames(root) ::
              RootFromPath(ResolveWorkspace(cwd, pid, AbsText(root))) == AbsText(root)
  {
    if PidFits(pid) {
      forall root: Segments | AllNames(root)
        ensures RootFromPath(ResolveWorkspace(cwd, pid, AbsText(root))) == AbsText(root)
      {
        PidKeepsRoot(cwd, root, pid);
      }
    } else {
      var root := PidLosesRoot(cwd, pid);
    }
  }

  lemma SingleElementFits(pid: string)
    requires IsName(pid)
    ensures PidFits(pid)
  {
    SplitOne(pid, '/');
    ReduceOne([], pid, false);
  }

  /** Where a process id of one element has its workspace: below the working directory,
      below an absolute root, or below a root that is taken from the working directory. */
  lemma PlainWorkspace(cwd: Segments, root: string, pid: string)
    requires AllNames(cwd) && IsName(pid)
    ensures var top := if root == "" then cwd else Reduce(if IsAbs(root) then [] else cwd, Split(root, '/'), true);
            && AllNames(top)
            && ResolveWorkspace(AbsText(cwd), pid, root) == AbsText(top + ["sandbox_workspace", pid])
  {
    hide Reduce, Split, Clean;
    var top := if root == "" then cwd else Reduce(if IsAbs(root) then [] else cwd, Split(root, '/'), true);
    AbsReduces(cwd, root);
    PlainBelow(AbsText(cwd), top, pid);
    NamesNormal(top, true);
    TextSegments(top, true);
    assert AbsText(top) != "";
  }

  lemma PlainBelow(cwd: string, top: Segments, pid: string)
    requires AllNames(top) && IsName(pid)
    ensures ResolveWorkspace(cwd, pid, AbsText(top)) == AbsText(top + ["sandbox_workspace", pid])
  {
    SplitOne(pid, '/');
    ReduceOne([], pid, false);
    ResolveElements(cwd, top, pid);
    assert Ups([pid]) == 0;
    assert Resolved(top, [pid]) == top + ["sandbox_workspace", pid];
  }

  lemma ExampleTexts()
    ensures AbsText(["r"]) == "/r" && AbsText(["r", WORKSPACE_DIR]) == "/r/sandbox_workspace"
  {
    assert ["r", WORKSPACE_DIR][1..] == [WORKSPACE_DIR];
    assert Join([WORKSPACE_DIR], '/') == WORKSPACE_DIR;
    assert Join(["r", WORKSPACE_DIR], '/') == "r" + ['/'] + WORKSPACE_DIR;
    assert "/r/" + WORKSPACE_DIR == "/" + ("r" + ['/'] + WORKSPACE_DIR);
  }

  /** A process id of two elements moves the root: `a/b` below `/r` has the workspace
      `/r/.../a/b`, whose root reads back as the directory in between. */
  lemma PidExample(cwd: string)
    ensures !PidFits("a/b") && RootFromPath(ResolveWorkspace(cwd, "a/b", "/r")) == "/r/sandbox_workspace"
  {
    hide Reduce, Split, ResolveWorkspace, RootFromPath, Dir, Join;
    var u, root := ["a", "b"], ["r"];
    SplitOne("a", '/');
    SplitOne("b", '/');
    SplitConcat("a", "b", '/');
    assert "a" + ['/'] + "b" == "a/b" && ["a"] + ["b"] == u;
    ReduceNames([], u, false);
    assert [] + u == u && PidSegments("a/b") == u && Ups(u) == 0;
    ExampleTexts();
    ResolveElements(cwd, root, "a/b");
    assert Resolved(root, u) == ["r", WORKSPACE_DIR, "a", "b"];
    RootOfElements(["r", WORKSPACE_DIR, "a", "b"]);
    assert ["r", WORKSPACE_DIR, "a", "b"][..2] == ["r", WORKSPACE_DIR];
  }
}
