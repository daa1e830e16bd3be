/** Saving and restoring a runtime's workspace: layout, snapshots, staging, and the swap
    of a staged directory into place. */
module WorkspaceRestore {
  import opened Wrappers
  import opened GoStrings
  import opened GoPaths
  import opened FileTrees
  import opened HostFiles
  import opened WorkspaceArchive

  // ----- layout directories -----

  const LAYOUT: seq<Segments> := [
    [], [".openclaw"], [".openclaw", "workspace"], ["workspace"], [".tmp"],
    [".xdg", "config"], [".xdg", "cache"], [".xdg", "state"]
  ]

  ghost predicate IsLayoutPath(q: Segments) { exists p :: p in LAYOUT && Above(q, p) }

  function WithLayout(t: Tree, dirs: seq<Segments>): Tree
    decreases |dirs|
  {
    if dirs == [] then t else WithLayout(WithDirs(t, dirs[0]), dirs[1..])
  }

  lemma NoLayout(t: Tree)
    ensures WithLayout(t, []) == t
  {
  }

  ghost predicate AnyBlocked(t: Tree, dirs: seq<Segments>) { exists p :: p in dirs && Blocked(t, p) }

  ghost predicate LayoutBlocked(t: Tree) { AnyBlocked(t, LAYOUT) }

  /** Some layout directories have been added, and nothing that was there has changed. */
  ghost predicate Grown(before: Tree, after: Tree) {
    && (forall q | q in before :: q in after && after[q] == before[q])
    && forall q | q in after && q !in before :: after[q] == Folder && IsLayoutPath(q)
  }

  lemma GrownTransitive(a: Tree, b: Tree, c: Tree)
    requires Grown(a, b) && Grown(b, c)
    ensures Grown(a, c)
  {
  }

  /** Nothing but `path` is different, which may have gained layout directories or be new. */
  ghost predicate GrewAt(before: Dirs, after: Dirs, path: string) {
    && OnlyAt(before, after, path) && (path in before ==> path in after)
    && Grown(At(before, path), At(after, path))
  }

  ghost predicate GrewSince(before: Dirs, history: seq<Dirs>, start: nat, path: string) {
    forall k | start <= k < |history| :: GrewAt(before, history[k], path)
  }

  lemma WithDirsGrown(t: Tree, p: Segments, q: Segments)
    requires p in LAYOUT && Above(q, p)
    ensures Grown(t, WithDirs(t, q))
  {
    forall x | Above(x, q)
      ensures IsLayoutPath(x)
    {
      AboveTransitive(x, q, p);
    }
  }

  lemma {:induction false} WithLayoutFacts(t: Tree, dirs: seq<Segments>)
    requires forall p | p in dirs :: p in LAYOUT
    ensures Grown(t, WithLayout(t, dirs))
    ensures forall p, q | p in dirs && Above(q, p) :: q in WithLayout(t, dirs)
    ensures forall p :: Blocked(WithLayout(t, dirs), p) <==> Blocked(t, p)
    decreases |dirs|
  {
    if dirs != [] {
      var made := WithDirs(t, dirs[0]);
      assert dirs[0] in dirs && forall p | p in dirs[1..] :: p in dirs;
      assert Above(dirs[0], dirs[0]);
      WithDirsGrown(t, dirs[0], dirs[0]);
      WithDirsBlocked(t, dirs[0]);
      WithLayoutFacts(made, dirs[1..]);
      GrownTransitive(t, made, WithLayout(t, dirs));
    }
  }

  lemma WithDirsBlocked(t: Tree, p: Segments)
    ensures forall q :: Blocked(WithDirs(t, p), q) <==> Blocked(t, q)
  {
    var made := WithDirs(t, p);
    forall q
      ensures Blocked(made, q) <==> Blocked(t, q)
    {
      if Blocked(made, q) {
        var x :| Above(x, q) && x in made && made[x].File?;
        assert x in t && t[x].File?;
      }
      if Blocked(t, q) {
        var x :| Above(x, q) && x in t && t[x].File?;
        assert x in made && made[x].File?;
      }
    }
  }

  lemma {:induction false} WithLayoutSnoc(t: Tree, dirs: seq<Segments>, p: Segments)
    ensures WithLayout(t, dirs + [p]) == WithDirs(WithLayout(t, dirs), p)
    decreases |dirs|
  {
    if dirs == [] {
      assert [] + [p] == [p] && [p][1..] == [];
    } else {
      assert (dirs + [p])[1..] == dirs[1..] + [p];
      WithLayoutSnoc(WithDirs(t, dirs[0]), dirs[1..], p);
    }
  }

  /** `ensureRuntimeWorkspaceDirs` over some of the layout of the workspace at `path`. */
  method EnsureDirs(host: Host, path: string, dirs: seq<Segments>) returns (ok: bool)
    requires dirs != [] && forall p | p in dirs :: p in LAYOUT
    modifies host
    ensures old(host.faulted) ==> host.faulted
    ensures GrewAt(old(host.dirs), host.dirs, path)
    ensures ok ==> host.dirs == old(host.dirs)[path := WithLayout(At(old(host.dirs), path), dirs)]
    ensures ok ==> host.faulted == old(host.faulted) && !AnyBlocked(At(old(host.dirs), path), dirs)
    ensures !ok && !host.faulted ==> AnyBlocked(At(old(host.dirs), path), dirs)
    ensures old(host.history) <= host.history && GrewSince(old(host.dirs), host.history, |old(host.history)|, path)
  {
    hide Grown, Blocked, WithLayout;
    ghost var start := At(host.dirs, path);
    assert dirs[..0] == [];
    NoLayout(start);
    for i := 0 to |dirs|
      invariant host.faulted == old(host.faulted) && old(host.history) <= host.history
      invariant GrewSince(old(host.dirs), host.history, |old(host.history)|, path)
      invariant OnlyAt(old(host.dirs), host.dirs, path) && (i > 0 || path in old(host.dirs) ==> path in host.dirs)
      invariant At(host.dirs, path) == WithLayout(start, dirs[..i])
      invariant forall j | 0 <= j < i :: !Blocked(start, dirs[j])
    {
      ghost var before := host.dirs;
      ok := EnsureDir(host, path, start, dirs, i);
      OnlyAtTransitive(old(host.dirs), before, host.dirs, path);
      assert GrewAt(old(host.dirs), host.dirs, path);
      if !ok {
        return;
      }
    }
    assert dirs[..|dirs|] == dirs;
    WithLayoutFacts(start, dirs);
    OnlyAtPut(old(host.dirs), old(host.dirs), path, host.dirs[path]);
    ok := true;
  }

  method EnsureDir(host: Host, path: string, ghost start: Tree, dirs: seq<Segments>, i: nat) returns (ok: bool)
    requires i < |dirs| && forall p | p in dirs :: p in LAYOUT
    requires At(host.dirs, path) == WithLayout(start, dirs[..i])
    modifies host
    ensures old(host.faulted) ==> host.faulted
    ensures OnlyAt(old(host.dirs), host.dirs, path) && (path in old(host.dirs) ==> path in host.dirs)
    ensures Grown(start, At(host.dirs, path))
    ensures ok ==> !Blocked(start, dirs[i]) && host.faulted == old(host.faulted)
    ensures ok ==> path in host.dirs && host.dirs[path] == WithLayout(start, dirs[..i + 1])
    ensures !ok && !host.faulted ==> Blocked(start, dirs[i])
    ensures host.history == old(host.history) + [host.dirs]
  {
    hide WithLayout, Grown;
    ghost var before := At(host.dirs, path);
    assert dirs[i] in dirs && dirs[..i + 1] == dirs[..i] + [dirs[i]];
    WithLayoutSnoc(start, dirs[..i], dirs[i]);
    assert forall p | p in dirs[..i + 1] :: p in dirs;
    WithLayoutFacts(start, dirs[..i]);
    WithLayoutFacts(start, dirs[..i + 1]);
    ok := host.MkdirAll(path, dirs[i]);
    if !ok {
      GrownAfterFailure(before, At(host.dirs, path), dirs[i]);
      GrownTransitive(start, before, At(host.dirs, path));
      return;
    }
    var chmodFails: bool := *;
    if chmodFails {
      host.faulted := true;
      return false;
    }
  }

  method EnsureLayout(host: Host, path: string) returns (ok: bool)
    modifies host
    ensures old(host.faulted) ==> host.faulted
    ensures GrewAt(old(host.dirs), host.dirs, path)
    ensures ok ==> host.dirs == old(host.dirs)[path := WithLayout(At(old(host.dirs), path), LAYOUT)]
    ensures ok ==> host.faulted == old(host.faulted) && !LayoutBlocked(At(old(host.dirs), path))
    ensures !ok && !host.faulted ==> LayoutBlocked(At(old(host.dirs), path))
    ensures old(host.history) <= host.history && GrewSince(old(host.dirs), host.history, |old(host.history)|, path)
  {
    ok := EnsureDirs(host, path, LAYOUT);
  }

  lemma GrownAfterFailure(before: Tree, after: Tree, p: Segments)
    requires p in LAYOUT
    requires after == before || exists q :: Above(q, p) && after == WithDirs(before, q)
    ensures Grown(before, after)
  {
    if after != before {
      var q :| Above(q, p) && after == WithDirs(before, q);
      WithDirsGrown(before, p, q);
    }
  }

  /** The directories that every runtime finds in its workspace. */
  const LAYOUT_DIRS: set<Segments> := {
    [], [".openclaw"], [".openclaw", "workspace"], ["workspace"], [".tmp"],
    [".xdg"], [".xdg", "config"], [".xdg", "cache"], [".xdg", "state"]
  }

  lemma AboveOne(q: Segments, a: string)
    ensures Above(q, [a]) <==> q == [] || q == [a]
  {
    if Above(q, [a]) { assert q == [a][..|q|]; }
  }

  lemma AboveTwo(q: Segments, a: string, b: string)
    ensures Above(q, [a, b]) <==> q == [] || q == [a] || q == [a, b]
  {
    if Above(q, [a, b]) { assert q == [a, b][..|q|]; }
  }

  lemma InLayout(p: Segments)
    ensures p in LAYOUT <==>
              || p == [] || p == [".openclaw"] || p == ["workspace"] || p == [".tmp"]
              || p == [".openclaw", "workspace"] || p == [".xdg", "config"] || p == [".xdg", "cache"]
              || p == [".xdg", "state"]
  {
    assert forall i | 0 <= i < |LAYOUT| :: LAYOUT[i] in LAYOUT;
    assert LAYOUT[0] == [] && LAYOUT[1] == [".openclaw"] && LAYOUT[2] == [".openclaw", "workspace"];
    assert LAYOUT[3] == ["workspace"] && LAYOUT[4] == [".tmp"] && LAYOUT[5] == [".xdg", "config"];
    assert LAYOUT[6] == [".xdg", "cache"] && LAYOUT[7] == [".xdg", "state"];
  }

  lemma LayoutPaths(q: Segments)
    ensures IsLayoutPath(q) <==> q in LAYOUT_DIRS
  {
    AboveOne(q, ".openclaw");
    AboveOne(q, "workspace");
    AboveOne(q, ".tmp");
    AboveTwo(q, ".openclaw", "workspace");
    AboveTwo(q, ".xdg", "config");
    AboveTwo(q, ".xdg", "cache");
    AboveTwo(q, ".xdg", "state");
    assert Above(q, []) <==> q == [];
    hide Above, LAYOUT;
    forall p
      ensures p in LAYOUT <==>
                || p == [] || p == [".openclaw"] || p == ["workspace"] || p == [".tmp"]
                || p == [".openclaw", "workspace"] || p == [".xdg", "config"] || p == [".xdg", "cache"]
                || p == [".xdg", "state"]
    {
      InLayout(p);
    }
  }

  /** Which directories are added, and which files are in their way. */
  lemma LayoutExact(t: Tree)
    ensures forall q :: q in WithLayout(t, LAYOUT) <==> q in t || q in LAYOUT_DIRS
    ensures LayoutBlocked(t) <==> exists q :: q in LAYOUT_DIRS && q in t && t[q].File?
  {
    hide WithLayout, LAYOUT, LAYOUT_DIRS, Above;
    WithLayoutFacts(t, LAYOUT);
    forall q
      ensures IsLayoutPath(q) <==> q in LAYOUT_DIRS
    {
      LayoutPaths(q);
    }
  }

  // ----- snapshots -----

  const FORMAT_V1 := "vmdocker.runtime-workspace.v1"

  /** The base64 text of an archive, by what becomes of it. */
  datatype ArchiveText = BlankText | Garbage | Packed(members: seq<TarMember>)

  /** A snapshot text: white space, a JSON object, or anything else. */
  datatype Snapshot = Blank | Envelope(format: string, name: string, archive: ArchiveText) | Bare(text: ArchiveText)

  datatype RestoreError =
    | RootPath | BlankWorkspace | IncompleteArchive | NoParent | EmptySnapshot | UnsupportedFormat | NameMismatch
    | EmptyArchive | BadArchive | UnpackFailed(error: ArchiveError) | HostFailure | LayoutFailed

  function NormalizeName(name: string): string { if TrimSpace(name) == "" then "workspace" else name }

  function DecodeSnapshot(snapshot: Snapshot, name: string): Result<ArchiveText, RestoreError> {
    match snapshot
    case Blank => Err(EmptySnapshot)
    case Bare(text) => if text.BlankText? then Err(EmptySnapshot) else Ok(text)
    case Envelope(format, recorded, archive) =>
      if format == "" then Ok(Garbage)
      else if format != FORMAT_V1 then Err(UnsupportedFormat)
      else if recorded != NormalizeName(name) then Err(NameMismatch)
      else if archive.BlankText? then Err(EmptyArchive)
      else Ok(archive)
  }

  /** Which snapshots have an archive to unpack under a name, and what the others are refused
      for.  A JSON object without a format is taken for base64 text itself, which it is not. */
  lemma DecodeExact(snapshot: Snapshot, name: string)
    ensures var v1, wanted := "vmdocker.runtime-workspace.v1", if TrimSpace(name) == "" then "workspace" else name;
            var r := DecodeSnapshot(snapshot, name);
            && (forall text :: r == Ok(text) <==>
                  || (snapshot == Bare(text) && text != BlankText)
                  || (snapshot.Envelope? && snapshot.format == "" && text == Garbage)
                  || (snapshot == Envelope(v1, wanted, text) && text != BlankText))
            && (r == Err(EmptySnapshot) <==> snapshot == Blank || snapshot == Bare(BlankText))
            && (r == Err(UnsupportedFormat) <==>
                  snapshot.Envelope? && snapshot.format != "" && snapshot.format != v1)
            && (r == Err(NameMismatch) <==>
                  snapshot.Envelope? && snapshot.format == v1 && snapshot.name != wanted)
            && (r == Err(EmptyArchive) <==> snapshot == Envelope(v1, wanted, BlankText))
  {
  }

  /** The snapshot of the directory at `workspace`, or the error of a blank path or of a
      file that was not copied completely. */
  method CheckpointWorkspace(host: Host, workspace: string, name: string)
    returns (r: Result<Snapshot, RestoreError>, ghost walk: WalkEnd)
    ensures r == Err(BlankWorkspace) <==> TrimSpace(workspace) == ""
    ensures r == Err(IncompleteArchive) <==>
              TrimSpace(workspace) != "" && workspace in host.dirs && LeavesGap(walk, host.dirs[workspace])
    ensures r.Err? ==> r.error in {BlankWorkspace, IncompleteArchive}
    ensures r.Ok? ==>
              && r.value.Envelope? && r.value.format == "vmdocker.runtime-workspace.v1"
              && r.value.name == (if TrimSpace(name) == "" then "workspace" else name)
              && r.value.archive.Packed?
              && (walk.Finished? && WellFormed(At(host.dirs, workspace)) ==>
                    Archives(r.value.archive.members, At(host.dirs, workspace)))
  {
    if TrimSpace(workspace) == "" {
      return Err(BlankWorkspace), BeforeHeader;
    }
    var members;
    members, walk := CompressDirectory(if workspace in host.dirs then Some(host.dirs[workspace]) else None);
    if members.None? {
      return Err(IncompleteArchive), walk;
    }
    r := Ok(Envelope(FORMAT_V1, NormalizeName(name), Packed(members.value)));
  }

  function NormalizeWorkspace(cwd: string, workspace: string): Result<string, RestoreError> {
    var cleaned := Abs(cwd, Clean(workspace));
    if cleaned == "/" then Err(RootPath) else Ok(cleaned)
  }

  // ----- staging -----

  function SiblingPath(workspace: string, mark: string, stamp: string): string {
    JoinPath(Dir(workspace), Base(workspace) + mark + stamp)
  }

  function StagePath(workspace: string, stamp: string): string { SiblingPath(workspace, ".restore-", stamp) }

  function BackupPath(workspace: string, stamp: string): string { SiblingPath(workspace, ".backup-", stamp) }

  /** The temporary directories of a workspace lie beside it, each under a name of its own. */
  lemma SiblingPaths(parent: Segments, name: string, stageStamp: string, backupStamp: string)
    requires AllNames(parent + [name]) && '/' !in stageStamp && '/' !in backupStamp
    ensures var workspace := AbsText(parent + [name]);
            var staged, backup := StagePath(workspace, stageStamp), BackupPath(workspace, backupStamp);
            && staged == AbsText(parent + [name + ".restore-" + stageStamp])
            && backup == AbsText(parent + [name + ".backup-" + backupStamp])
            && staged != workspace && backup != workspace && staged != backup
            && Dir(staged) == AbsText(parent) && Dir(backup) == AbsText(parent)
  {
    var first, second := name + ".restore-" + stageStamp, name + ".backup-" + backupStamp;
    assert name in parent + [name] && forall seg | seg in parent :: seg in parent + [name];
    assert first[|name| + 1] == 'r' && second[|name| + 1] == 'b';
    assert first == name + (".restore-" + stageStamp) && second == name + (".backup-" + backupStamp);
    JoinBeside(parent, name, first);
    JoinBeside(parent, name, second);
    BesideDiffer(parent, name, first);
    BesideDiffer(parent, name, second);
    BesideDiffer(parent, first, second);
  }

  lemma NormalizedBeside(cwd: string, workspace: string, stageStamp: string, backupStamp: string)
    requires IsAbs(cwd) && NormalizeWorkspace(cwd, workspace).Ok? && '/' !in stageStamp && '/' !in backupStamp
    ensures var ws := NormalizeWorkspace(cwd, workspace).value;
            var staged, backup := StagePath(ws, stageStamp), BackupPath(ws, backupStamp);
            IsAbs(ws) && staged != ws && backup != ws && staged != backup
  {
    hide Clean, JoinPath, StagePath, BackupPath;
    AbsIsAbsText(cwd, Clean(workspace));
    var segs :| AllNames(segs) && Abs(cwd, Clean(workspace)) == AbsText(segs);
    var parent := segs[..|segs| - 1];
    assert segs == parent + [segs[|segs| - 1]];
    SiblingPaths(parent, segs[|segs| - 1], stageStamp, backupStamp);
  }

  /** Different names below a directory are different paths below it. */
  lemma BesideDiffer(parent: Segments, a: string, b: string)
    requires AllNames(parent) && IsName(a) && IsName(b) && a != b
    ensures AbsText(parent + [a]) != AbsText(parent + [b])
    ensures Dir(AbsText(parent + [a])) == AbsText(parent) == Dir(AbsText(parent + [b]))
  {
    NamesNormal(parent + [a], true);
    NamesNormal(parent + [b], true);
    DirOfAbs(parent + [a]);
    DirOfAbs(parent + [b]);
    assert (parent + [a])[..|parent|] == parent == (parent + [b])[..|parent|];
    assert (parent + [a])[|parent|] == a && (parent + [b])[|parent|] == b;
    if AbsText(parent + [a]) == AbsText(parent + [b]) {
      TextInjective(parent + [a], parent + [b], true);
    }
  }

  /** The path of a workspace is refused exactly when it is the root directory under some
      spelling; any other is made absolute and clean. */
  lemma NormalizeExact(cwd: Segments, workspace: string)
    requires AllNames(cwd)
    ensures var segs := Reduce(if IsAbs(workspace) then [] else cwd, Split(workspace, '/'), true);
            && AllNames(segs)
            && NormalizeWorkspace(AbsText(cwd), workspace) == if segs == [] then Err(RootPath) else Ok(AbsText(segs))
  {
    var segs := Reduce(if IsAbs(workspace) then [] else cwd, Split(workspace, '/'), true);
    AbsReduces(cwd, workspace);
    if segs != [] { assert segs[0] in segs; }
  }

  /** What a snapshot unpacks to, or why it does not. */
  ghost function Unpacked(snapshot: Snapshot, name: string): Result<Tree, RestoreError> {
    match DecodeSnapshot(snapshot, name)
    case Err(e) => Err(e)
    case Ok(text) => UnpackedText(text)
  }

  /** `stamp` is the part of the temporary name that the operating system picks. */
  method StageRestore(host: Host, cwd: string, workspace: string, name: string, snapshot: Snapshot, stamp: string)
    returns (r: Result<string, RestoreError>, cleaned: bool)
    requires IsAbs(cwd)
    requires var ws := NormalizeWorkspace(cwd, workspace);
             ws.Ok? ==> StagePath(ws.value, stamp) !in host.dirs
    modifies host
    ensures old(host.faulted) ==> host.faulted
    ensures old(host.history) <= host.history
    ensures var ws := NormalizeWorkspace(cwd, workspace);
            match ws
            case Err(e) => r == Err(e) && host.dirs == old(host.dirs) && cleaned
            case Ok(path) =>
              StageOutcome(old(host.dirs), old(host.parents), host, StagePath(path, stamp), name, snapshot, r, cleaned)
  {
    var ws := NormalizeWorkspace(cwd, workspace);
    if ws.Err? {
      return Err(ws.error), true;
    }
    AbsIsAbsText(cwd, Clean(workspace));
    r, cleaned := StageNormalized(host, ws.value, StagePath(ws.value, stamp), name, snapshot);
  }

  /** Why staging fails when no system call fails for a reason of its own: the snapshot is
      decoded, then the directory is made, then the archive is unpacked. */
  ghost function StageError(snapshot: Snapshot, name: string, hasParent: bool): Option<RestoreError> {
    match DecodeSnapshot(snapshot, name)
    case Err(e) => Some(e)
    case Ok(text) =>
      if !hasParent then Some(NoParent)
      else
        match UnpackedText(text)
        case Err(e) => Some(e)
        case Ok(_) => None
  }

  /** What staging may do: unpack the snapshot into the new directory `staged`, or fail
      and leave nothing behind. */
  ghost predicate StageOutcome(before: Dirs, parents: set<string>, host: Host, staged: string, name: string,
                               snapshot: Snapshot, r: Result<string, RestoreError>, cleaned: bool)
    reads host
  {
    var error := StageError(snapshot, name, Dir(staged) in parents);
    && (r.Ok? ==> && cleaned && r.value == staged && error == None && Unpacked(snapshot, name).Ok?
                  && host.dirs == before[staged := Unpacked(snapshot, name).value])
    && (r.Err? && cleaned ==> host.dirs == before)
    && (r.Err? && !host.faulted ==> cleaned && error == Some(r.error))
  }

  method StageNormalized(host: Host, workspace: string, staged: string, name: string, snapshot: Snapshot)
    returns (r: Result<string, RestoreError>, cleaned: bool)
    requires IsAbs(workspace) && staged !in host.dirs
    modifies host
    ensures old(host.faulted) ==> host.faulted
    ensures old(host.history) <= host.history && OnlyAtSince(old(host.dirs), host.history, |old(host.history)|, staged)
    ensures OnlyAt(old(host.dirs), host.dirs, staged)
    ensures StageOutcome(old(host.dirs), old(host.parents), host, staged, name, snapshot, r, cleaned)
  {
    var archive := DecodeSnapshot(snapshot, name);
    if archive.Err? {
      return Err(archive.error), true;
    }
    r, cleaned := FillStage(host, staged, workspace, archive.value);
  }

  /** What a decoded snapshot unpacks to. */
  ghost function UnpackedText(text: ArchiveText): Result<Tree, RestoreError> {
    if !text.Packed? then Err(BadArchive)
    else
      match Extract(EMPTY_DIR, text.members)
      case Err(e) => Err(UnpackFailed(e))
      case Ok(t) => if LayoutBlocked(t) then Err(LayoutFailed) else Ok(WithLayout(t, LAYOUT))
  }

  /** Makes the temporary directory and fills it, or removes it again. */
  method FillStage(host: Host, staged: string, workspace: string, archive: ArchiveText)
    returns (r: Result<string, RestoreError>, cleaned: bool)
    requires IsAbs(workspace) && staged !in host.dirs
    modifies host
    ensures old(host.faulted) ==> host.faulted
    ensures r.Ok? ==>
              && cleaned && UnpackedText(archive).Ok? && r.value == staged
              && host.dirs == old(host.dirs)[staged := UnpackedText(archive).value]
    ensures r.Err? && cleaned ==> host.dirs == old(host.dirs)
    ensures r.Ok? ==> Dir(staged) in old(host.parents)
    ensures r.Err? && !host.faulted ==>
              && cleaned
              && if Dir(staged) in old(host.parents) then UnpackedText(archive) == Err(r.error) else r.error == NoParent
    ensures old(host.history) <= host.history && OnlyAtSince(old(host.dirs), host.history, |old(host.history)|, staged)
    ensures OnlyAt(old(host.dirs), host.dirs, staged)
  {
    cleaned := true;
    var ok := host.MkdirTemp(staged);
    if !ok {
      return Err(if Dir(staged) in host.parents then HostFailure else NoParent), true;
    }
    ghost var made, mid := host.dirs, |host.history|;
    OnlyAtPut(old(host.dirs), old(host.dirs), staged, EMPTY_DIR);
    var error := UnpackAndLayout(host, staged, workspace, archive);
    OnlyAtTransitive(old(host.dirs), made, host.dirs, staged);
    OnlyAtSinceFrom(old(host.dirs), made, host.history, |old(host.history)|, mid, staged);
    if error == None {
      OnlyAtPut(old(host.dirs), made, staged, UnpackedText(archive).value);
      return Ok(staged), true;
    }
    ghost var filled := host.dirs;
    cleaned := host.RemoveAll(staged);
    OnlyAtTransitive(old(host.dirs), filled, host.dirs, staged);
    OnlyAtRemoved(old(host.dirs), filled, staged);
    r := Err(error.value);
  }

  method UnpackAndLayout(host: Host, staged: string, workspace: string, archive: ArchiveText)
    returns (error: Option<RestoreError>)
    requires IsAbs(workspace)
    modifies host
    ensures old(host.faulted) ==> host.faulted
    ensures error == None ==>
              UnpackedText(archive).Ok? && host.dirs == old(host.dirs)[staged := UnpackedText(archive).value]
    ensures error.Some? && !host.faulted ==> UnpackedText(archive) == Err(error.value)
    ensures old(host.history) <= host.history && OnlyAtSince(old(host.dirs), host.history, |old(host.history)|, staged)
    ensures OnlyAt(old(host.dirs), host.dirs, staged)
  {
    if !archive.Packed? {
      return Some(BadArchive);
    }
    error := UnpackToHost(host, staged, workspace, archive.members);
    if error.Some? {
      return;
    }
    ghost var unpacked, mid := host.dirs, |host.history|;
    var ok := EnsureLayout(host, staged);
    OnlyAtTransitive(old(host.dirs), unpacked, host.dirs, staged);
    OnlyAtSinceFrom(old(host.dirs), unpacked, host.history, |old(host.history)|, mid, staged);
    if !ok {
      return Some(LayoutFailed);
    }
    OnlyAtPut(old(host.dirs), unpacked, staged, host.dirs[staged]);
  }

  method UnpackToHost(host: Host, staged: string, workspace: string, members: seq<TarMember>)
    returns (error: Option<RestoreError>)
    requires IsAbs(workspace)
    modifies host
    ensures old(host.faulted) ==> host.faulted
    ensures error == None ==>
              && Extract(EMPTY_DIR, members).Ok? && staged in host.dirs
              && host.dirs[staged] == Extract(EMPTY_DIR, members).value
    ensures error.Some? && !host.faulted ==>
              Extract(EMPTY_DIR, members).Err? && error == Some(UnpackFailed(Extract(EMPTY_DIR, members).error))
    ensures host.history == old(host.history) + [host.dirs]
    ensures OnlyAt(old(host.dirs), host.dirs, staged)
  {
    var disk := new Disk(EMPTY_DIR);
    var failed := UnpackInto(disk, workspace, members);
    host.faulted := host.faulted || disk.faulted;
    var ok := host.Put(staged, disk.tree);
    OnlyAtPut(old(host.dirs), old(host.dirs), staged, disk.tree);
    if failed.Some? {
      return Some(UnpackFailed(failed.value));
    }
    if !ok {
      return Some(HostFailure);
    }
    error := None;
  }

  /** Unpacks an archive into the new directory `disk`. */
  method UnpackInto(disk: Disk, workspace: string, members: seq<TarMember>) returns (failed: Option<ArchiveError>)
    requires IsAbs(workspace) && disk.tree == EMPTY_DIR && !disk.faulted
    modifies disk
    ensures failed == None ==> Extract(EMPTY_DIR, members) == Ok(disk.tree) && !disk.faulted
    ensures failed.Some? && !disk.faulted ==> Extract(EMPTY_DIR, members) == Err(failed.value)
  {
    CleanNormal(workspace);
    failed := DecompressToDirectory(disk, CleanSegments(workspace), members);
  }

  lemma DecodeV1(recorded: string, members: seq<TarMember>, name: string)
    ensures DecodeSnapshot(Envelope(FORMAT_V1, recorded, Packed(members)), name)
         == if recorded != NormalizeName(name) then Err(NameMismatch) else Ok(Packed(members))
  {
  }

  lemma UnpackRoundTrip(t: Tree, members: seq<TarMember>)
    requires WellFormed(t) && Archives(members, t)
    ensures UnpackedText(Packed(members)) == if LayoutBlocked(t) then Err(LayoutFailed) else Ok(WithLayout(t, LAYOUT))
    ensures Grown(t, WithLayout(t, LAYOUT))
  {
    ArchiveRoundTrip(t, members);
    WithLayoutFacts(t, LAYOUT);
  }

  /** Checkpointing a workspace and staging the snapshot under the same normalised name
      gives the same tree with the layout directories added; this fails only where a
      regular file has a layout directory's name.  Another name is refused. */
  lemma CheckpointStageRoundTrip(t: Tree, recorded: string, snapshot: Snapshot, name: string)
    requires WellFormed(t) && snapshot.Envelope? && snapshot.format == "vmdocker.runtime-workspace.v1"
    requires snapshot.name == (if TrimSpace(recorded) == "" then "workspace" else recorded)
    requires snapshot.archive.Packed? && Archives(snapshot.archive.members, t)
    ensures var u := Unpacked(snapshot, name);
            u == if snapshot.name != (if TrimSpace(name) == "" then "workspace" else name) then Err(NameMismatch)
                 else if LayoutBlocked(t) then Err(LayoutFailed)
                 else Ok(WithLayout(t, LAYOUT))
    ensures Grown(t, WithLayout(t, LAYOUT))
    ensures TrimSpace(recorded) != "" && TrimSpace(name) != "" && recorded != name ==>
              Unpacked(snapshot, name) == Err(NameMismatch)
  {
    var members := snapshot.archive.members;
    DecodeV1(snapshot.name, members, name);
    UnpackRoundTrip(t, members);
  }

  // ----- swapping directories -----

  /** What the rollback and commit closures capture. */
  datatype Swap = Swap(workspace: string, staged: string, backup: string, hasBackup: bool)

  /** The directories after a successful swap. */
  function Promoted(dirs: Dirs, s: Swap): Dirs
    requires s.staged in dirs && (s.hasBackup ==> s.workspace in dirs)
  {
    (if s.hasBackup then dirs - {s.staged} + map[s.backup := dirs[s.workspace]] else dirs - {s.staged})
    + map[s.workspace := dirs[s.staged]]
  }

  function RolledBack(dirs: Dirs, s: Swap): Dirs
    requires s.hasBackup ==> s.backup in dirs
  {
    if s.hasBackup then dirs - {s.workspace, s.backup} + map[s.workspace := dirs[s.backup]]
    else dirs - {s.workspace}
  }

  function Committed(dirs: Dirs, s: Swap): Dirs { if s.hasBackup then dirs - {s.backup} else dirs }

  /** The old content is intact, under the workspace path or the backup path. */
  predicate Intact(dirs: Dirs, s: Swap, content: Tree) {
    || (s.workspace in dirs && dirs[s.workspace] == content)
    || (s.backup in dirs && dirs[s.backup] == content)
  }

  ghost predicate FreshSwap(dirs: Dirs, s: Swap) {
    && s.backup !in dirs && s.staged in dirs
    && s.workspace != s.staged && s.workspace != s.backup && s.staged != s.backup
    && (s.hasBackup <==> s.workspace in dirs)
  }

  /** Promote and then rollback gives back the old tree, or its absence. */
  lemma RollbackUndoesPromote(dirs: Dirs, s: Swap)
    requires FreshSwap(dirs, s)
    ensures RolledBack(Promoted(dirs, s), s) == dirs - {s.staged}
  {
  }

  /** The same when the new directory was written to before the rollback. */
  lemma RollbackUndoesLaterWrites(dirs: Dirs, s: Swap, tree: Tree)
    requires FreshSwap(dirs, s)
    ensures RolledBack(Promoted(dirs, s)[s.workspace := tree], s) == dirs - {s.staged}
  {
  }

  /** Promote and then commit leaves exactly the staged tree, and no backup. */
  lemma CommitKeepsStaged(dirs: Dirs, s: Swap)
    requires FreshSwap(dirs, s)
    ensures Committed(Promoted(dirs, s), s) == (dirs - {s.staged})[s.workspace := dirs[s.staged]]
  {
  }

  /** After a rollback, a commit changes nothing. */
  lemma CommitAfterRollback(dirs: Dirs, s: Swap)
    requires FreshSwap(dirs, s)
    ensures Committed(RolledBack(Promoted(dirs, s), s), s) == dirs - {s.staged}
  {
  }

  /** `stamp` is the time in the backup's name. */
  method Promote(host: Host, cwd: string, workspace: string, staged: string, stamp: string)
    returns (r: Result<Swap, RestoreError>, cleaned: bool)
    requires var ws, st := NormalizeWorkspace(cwd, workspace), NormalizeWorkspace(cwd, staged);
             ws.Ok? && st.Ok? ==>
               FreshSwap(host.dirs, Swap(ws.value, st.value, BackupPath(ws.value, stamp), ws.value in host.dirs))
    modifies host
    ensures old(host.faulted) ==> host.faulted
    ensures r.Ok? ==>
              && cleaned
              && var ws, st := NormalizeWorkspace(cwd, workspace), NormalizeWorkspace(cwd, staged);
                 && ws.Ok? && st.Ok?
                 && r.value == Swap(ws.value, st.value, BackupPath(ws.value, stamp), ws.value in old(host.dirs))
                 && FreshSwap(old(host.dirs), r.value)
                 && host.dirs == Promoted(old(host.dirs), r.value)
    ensures r.Err? && cleaned ==> host.dirs == old(host.dirs)
    ensures r.Err? && !host.faulted ==> cleaned && r == Err(RootPath)
    ensures r == Err(RootPath) <==> NormalizeWorkspace(cwd, workspace).Err? || NormalizeWorkspace(cwd, staged).Err?
    ensures old(host.history) <= host.history
    // At every step the old content is intact.
    ensures var ws, st := NormalizeWorkspace(cwd, workspace), NormalizeWorkspace(cwd, staged);
            ws.Ok? && st.Ok? && ws.value in old(host.dirs) ==>
              IntactSince(host.history, |old(host.history)|,
                          Swap(ws.value, st.value, BackupPath(ws.value, stamp), true), old(host.dirs)[ws.value])
  {
    var ws := NormalizeWorkspace(cwd, workspace);
    if ws.Err? {
      return Err(ws.error), true;
    }
    var st := NormalizeWorkspace(cwd, staged);
    if st.Err? {
      return Err(st.error), true;
    }
    r, cleaned := SwapIn(host, ws.value, st.value, BackupPath(ws.value, stamp));
  }

  ghost predicate IntactSince(history: seq<Dirs>, start: nat, s: Swap, content: Tree) {
    forall k | start <= k < |history| :: Intact(history[k], s, content)
  }

  lemma SwapSteps(dirs: Dirs, s: Swap)
    requires FreshSwap(dirs, s)
    ensures s.hasBackup ==>
              var moved := Renamed(dirs, s.workspace, s.backup);
              && s.staged in moved && s.backup in moved && moved[s.backup] == dirs[s.workspace]
              && Renamed(moved, s.staged, s.workspace) == Promoted(dirs, s)
              && Renamed(moved, s.backup, s.workspace) == dirs
              && Intact(Promoted(dirs, s), s, dirs[s.workspace])
    ensures !s.hasBackup ==> Renamed(dirs, s.staged, s.workspace) == Promoted(dirs, s)
  {
  }

  method SwapIn(host: Host, workspace: string, staged: string, backup: string)
    returns (r: Result<Swap, RestoreError>, cleaned: bool)
    requires FreshSwap(host.dirs, Swap(workspace, staged, backup, workspace in host.dirs))
    modifies host
    ensures old(host.faulted) ==> host.faulted
    ensures r.Ok? ==>
              && cleaned && r.value == Swap(workspace, staged, backup, workspace in old(host.dirs))
              && host.dirs == Promoted(old(host.dirs), r.value)
    ensures r.Err? && cleaned ==> host.dirs == old(host.dirs)
    ensures r.Err? ==> r.error == HostFailure && host.faulted
    ensures r.Err? && !cleaned ==>
              workspace in old(host.dirs) && host.dirs == Renamed(old(host.dirs), workspace, backup)
    ensures old(host.history) <= host.history
    ensures workspace in old(host.dirs) ==>
              && IntactSince(host.history, |old(host.history)|, Swap(workspace, staged, backup, true),
                             old(host.dirs)[workspace])
              && Intact(host.dirs, Swap(workspace, staged, backup, true), old(host.dirs)[workspace])
  {
    ghost var dirs, s := host.dirs, Swap(workspace, staged, backup, workspace in host.dirs);
    SwapSteps(dirs, s);
    cleaned := true;
    var found := host.Stat(workspace);
    match found {
      case Exists =>
        var ok := host.Rename(workspace, backup);
        if !ok {
          return Err(HostFailure), true;
        }
        assert host.dirs == Renamed(dirs, workspace, backup);
        ok := host.Rename(staged, workspace);
        if !ok {
          cleaned := host.Rename(backup, workspace);
          return Err(HostFailure), cleaned;
        }
        r := Ok(Swap(workspace, staged, backup, true));
      case StatFailed =>
        return Err(HostFailure), true;
      case NotExist =>
        var ok := host.Rename(staged, workspace);
        if !ok {
          return Err(HostFailure), true;
        }
        r := Ok(Swap(workspace, staged, backup, false));
    }
  }

  /** The rollback closure. */
  method Rollback(host: Host, s: Swap) returns (ok: bool)
    requires s.workspace != s.backup && (s.hasBackup ==> s.backup in host.dirs)
    modifies host
    ensures old(host.faulted) ==> host.faulted
    ensures ok ==> host.dirs == RolledBack(old(host.dirs), s)
    ensures !ok ==> host.faulted
    ensures old(host.history) <= host.history
    ensures s.hasBackup ==>
              && IntactSince(host.history, |old(host.history)|, s, old(host.dirs)[s.backup])
              && Intact(host.dirs, s, old(host.dirs)[s.backup])
  {
    ok := host.RemoveAll(s.workspace);
    assert s.hasBackup ==> s.backup in host.dirs && host.dirs[s.backup] == old(host.dirs)[s.backup] by {
      if s.hasBackup {
        assert s.backup in old(host.dirs) - {s.workspace};
        assert (host.dirs - {s.workspace})[s.backup] == (old(host.dirs) - {s.workspace})[s.backup];
      }
    }
    if !ok {
      return;
    }
    if s.hasBackup {
      ok := host.Rename(s.backup, s.workspace);
    }
  }

  /** The commit closure. */
  method Commit(host: Host, s: Swap) returns (ok: bool)
    requires s.workspace != s.backup
    modifies host
    ensures old(host.faulted) ==> host.faulted
    ensures ok ==> host.dirs == Committed(old(host.dirs), s) && host.faulted == old(host.faulted)
    ensures !ok ==>
              && host.faulted && s.hasBackup && s.backup in old(host.dirs) && s.backup in host.dirs
              && host.dirs == old(host.dirs)[s.backup := host.dirs[s.backup]]
              && IsPart(host.dirs[s.backup], old(host.dirs)[s.backup])
    ensures old(host.history) <= host.history && |host.history| <= |old(host.history)| + 1
  {
    if !s.hasBackup {
      return true;
    }
    ok := host.RemoveAll(s.backup);
  }

  /** Restores a workspace outside a running VM.  When only the removal of the backup
      fails, the rollback brings back what the failed removal left of the old tree. */
  method RestoreWorkspace(host: Host, cwd: string, workspace: string, name: string, snapshot: Snapshot,
                          stageStamp: string, backupStamp: string)
    returns (err: Option<RestoreError>, cleaned: bool)
    requires IsAbs(cwd) && '/' !in stageStamp && '/' !in backupStamp
    requires var ws := NormalizeWorkspace(cwd, workspace);
             ws.Ok? ==>
               StagePath(ws.value, stageStamp) !in host.dirs && BackupPath(ws.value, backupStamp) !in host.dirs
    modifies host
    ensures var ws := NormalizeWorkspace(cwd, workspace);
            match ws
            case Err(e) => err == Some(e) && host.dirs == old(host.dirs) && cleaned
            case Ok(path) => RestoreOutcome(old(host.dirs), host.dirs, host.faulted, path, name, snapshot, err, cleaned)
  {
    var ws := NormalizeWorkspace(cwd, workspace);
    if ws.Err? {
      return Some(ws.error), true;
    }
    var staged, backup := StagePath(ws.value, stageStamp), BackupPath(ws.value, backupStamp);
    NormalizedBeside(cwd, workspace, stageStamp, backupStamp);
    err, cleaned := RestoreNormalized(host, ws.value, staged, backup, name, snapshot);
  }

  method RestoreNormalized(host: Host, workspace: string, staged: string, backup: string, name: string,
                           snapshot: Snapshot)
    returns (err: Option<RestoreError>, cleaned: bool)
    requires IsAbs(workspace) && staged !in host.dirs && backup !in host.dirs
    requires staged != workspace && backup != workspace && staged != backup
    modifies host
    ensures RestoreOutcome(old(host.dirs), host.dirs, host.faulted, workspace, name, snapshot, err, cleaned)
  {
    ghost var dirs := host.dirs;
    var r;
    r, cleaned := StageNormalized(host, workspace, staged, name, snapshot);
    if r.Err? {
      return Some(r.error), cleaned;
    }
    StagedOnly(dirs, staged, Unpacked(snapshot, name).value, workspace);
    err, cleaned := SwapAndCommit(host, workspace, staged, backup);
    assert err == None ==> host.dirs == dirs[workspace := Unpacked(snapshot, name).value];
    assert err.Some? && cleaned ==> LeftOver(dirs, host.dirs, workspace);
  }

  lemma StagedOnly(dirs: Dirs, staged: string, tree: Tree, workspace: string)
    requires staged !in dirs && staged != workspace
    ensures dirs[staged := tree] - {staged} == dirs && dirs[staged := tree][staged] == tree
    ensures workspace in dirs[staged := tree] <==> workspace in dirs
  {
  }

  ghost predicate RestoreOutcome(before: Dirs, after: Dirs, faulted: bool, ws: string, name: string, snapshot: Snapshot,
                                 err: Option<RestoreError>, cleaned: bool) {
    && (err == None ==>
          cleaned && Unpacked(snapshot, name).Ok? && after == before[ws := Unpacked(snapshot, name).value])
    && (err.Some? && cleaned ==> LeftOver(before, after, ws))
    && (err.Some? && err != Some(HostFailure) && cleaned ==> after == before)
    && (err.Some? && !faulted ==> after == before)
  }

  /** The old tree, or what a failed removal has left of it. */
  ghost predicate LeftOver(before: Dirs, after: Dirs, ws: string) {
    || after == before
    || (ws in before && ws in after && after == before[ws := after[ws]] && IsPart(after[ws], before[ws]))
  }

  lemma NothingChanged(dirs: Dirs, ws: string)
    ensures LeftOver(dirs, dirs, ws)
  {
  }

  /** Swaps a staged directory in and removes the backup, or undoes the swap. */
  method SwapAndCommit(host: Host, workspace: string, staged: string, backup: string)
    returns (err: Option<RestoreError>, cleaned: bool)
    requires FreshSwap(host.dirs, Swap(workspace, staged, backup, workspace in host.dirs))
    modifies host
    ensures old(host.faulted) ==> host.faulted
    ensures err == None ==>
              cleaned && host.dirs == (old(host.dirs) - {staged})[workspace := old(host.dirs)[staged]]
    ensures err.Some? ==> err == Some(HostFailure) && host.faulted
    ensures err.Some? && cleaned ==> LeftOver(old(host.dirs) - {staged}, host.dirs, workspace)
  {
    hide Intact, IntactSince, LeftOver;
    ghost var dirs := host.dirs;
    NothingChanged(dirs - {staged}, workspace);
    var swap, undone := SwapIn(host, workspace, staged, backup);
    if swap.Err? {
      var removed := host.RemoveAll(staged);
      return Some(swap.error), undone && removed;
    }
    var committed := Commit(host, swap.value);
    if !committed {
      ghost var half := host.dirs;
      var rolledBack := Rollback(host, swap.value);
      if rolledBack {
        FailedCommitRolledBack(dirs, half, swap.value);
      }
      ghost var back := host.dirs;
      var removed := host.RemoveAll(staged);
      if rolledBack && removed {
        assert host.dirs == back - {staged} == back;
      }
      return Some(HostFailure), rolledBack && removed;
    }
    CommitKeepsStaged(dirs, swap.value);
    err := None;
    cleaned := true;
    var removed := host.RemoveAll(staged);
    assert removed && host.dirs == (dirs - {staged})[workspace := dirs[staged]];
  }

  lemma FailedCommitRolledBack(dirs: Dirs, half: Dirs, s: Swap)
    requires FreshSwap(dirs, s) && s.hasBackup && s.backup in half
    requires half == Promoted(dirs, s)[s.backup := half[s.backup]]
    requires IsPart(half[s.backup], dirs[s.workspace])
    ensures LeftOver(dirs - {s.staged}, RolledBack(half, s), s.workspace)
    ensures s.staged !in RolledBack(half, s)
  {
    assert RolledBack(half, s) == (dirs - {s.staged})[s.workspace := half[s.backup]];
  }
}
