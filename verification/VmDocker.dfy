/** A VM's runtime over its life: spawning, checkpointing, and the restore transaction
    with its stacked clean-ups. */
module VmDocker {
  import opened Wrappers
  import opened GoStrings
  import opened GoPaths
  import opened RuntimeSchema
  import opened FileTrees
  import opened HostFiles
  import opened WorkspaceArchive
  import opened WorkspacePaths
  import opened WorkspaceRestore
  import opened DockerManager
  import opened LaunchConfig
  import opened VmRuntimes

  datatype VmError =
    | NoInstance | BadSnapshot | BadFormat | ConfigFailed(config: ConfigError) | NoManager | ImageFailed
    | StageFailed(stage: RestoreError) | AgentFailed | RemoveFailed | HalfRemoved | SwapFailed | LaunchFailed
    | ArchiveFailed(relaunched: bool) | SeedFailed

  /** What a restore needs to bring the previous runtime back. */
  datatype Saved = Saved(kind: Kind, config: Config, state: string)

  /** What a VM and the managers record about its instance, with the state of its agent. */
  datatype Standing = Standing(info: Option<InstanceInfo>, manager: Option<Kind>, held: Holding)

  /** What the VM's manager holds. */
  function LiveIn(s: Standing): Option<Live> { if s.manager.Some? then s.held.Get(s.manager.value) else None }

  /** Running, with an agent that is up and whose state is known. */
  predicate IsWell(live: Option<Live>) {
    live.Some? && live.value.info.status == Running && live.value.agent.Up? && live.value.agent.state.Some?
  }

  /** What ran still runs, and an agent that was up is up, in the same state if that was known. */
  predicate NoWorse(was: Option<Live>, now: Option<Live>) {
    was.Some? ==>
      && now.Some? && (was.value.info.status == Running ==> now.value.info.status == Running)
      && (was.value.agent.Up? ==> now.value.agent.Up?)
      && (was.value.agent.Up? && was.value.agent.state.Some? ==> now.value.agent == was.value.agent)
  }

  /** If the VM has an instance, it is well. */
  predicate WellIn(s: Standing) { s.info.Some? ==> IsWell(LiveIn(s)) }

  /** The VM has an instance whose agent is down. */
  predicate DownIn(s: Standing) { s.info.Some? && LiveIn(s).Some? && LiveIn(s).value.agent == Down }

  /** The VM is as it was: without an instance, or with one of the same configuration on
      the same manager that is doing no worse. */
  predicate KeptIn(was: Standing, now: Standing) {
    match was.info
    case None => now.info == None
    case Some(info) =>
      && now.info.Some? && SameConfig(info, now.info.value)
      && now.manager == was.manager && NoWorse(LiveIn(was), LiveIn(now))
  }

  /** The instance is registered as before, but its sandbox has been stopped. */
  predicate HalvedIn(was: Standing, now: Standing) {
    && was.info.Some? && now.info == was.info
    && was.manager == Some(SandboxKind) && now.manager == was.manager && DownIn(now)
  }

  /** What an error leaves: the VM as it was, unless a sandbox was stopped and then could
      not be removed. */
  predicate AfterErrorIn(err: VmError, was: Standing, now: Standing) {
    if err == HalfRemoved then HalvedIn(was, now) else KeptIn(was, now)
  }

  lemma KeptReflexive(s: Standing)
    ensures KeptIn(s, s)
  {
  }

  /** A VM that was well is as it was after an error exactly when it was not that one. */
  lemma AfterErrorExact(err: VmError, was: Standing, now: Standing)
    requires AfterErrorIn(err, was, now) && WellIn(was)
    ensures KeptIn(was, now) <==> err != HalfRemoved
    ensures err != HalfRemoved ==> WellIn(now)
  {
  }

  /** The errors of a checkpoint after which the instance is gone. */
  predicate LosesInstance(err: VmError) { err == LaunchFailed || err == ArchiveFailed(false) }

  /** What a checkpoint leaves: after a success the VM as it was, running with its agent in
      the checkpointed state, and after an error what an error leaves, unless the instance
      could not be launched again. */
  predicate CheckpointLeaves(r: Result<Checkpoint, VmError>, was: Standing, now: Standing) {
    match r
    case Ok(cp) => KeptIn(was, now) && IsWell(LiveIn(now)) && LiveIn(now).value.agent == Up(Some(cp.runtimeState))
    case Err(e) => if LosesInstance(e) then was.info.Some? && now.info == None else AfterErrorIn(e, was, now)
  }

  lemma NothingLost(err: VmError, s: Standing)
    requires s.info == None && !LosesInstance(err) && err != HalfRemoved
    ensures CheckpointLeaves(Err(err), s, s) && !DownIn(s)
  {
  }

  lemma ErrorLeft(err: VmError, was: Standing, now: Standing)
    requires AfterErrorIn(err, was, now) && !LosesInstance(err)
    ensures CheckpointLeaves(Err(err), was, now)
  {
  }

  /** When a checkpoint leaves the VM as it was. */
  lemma CheckpointExact(r: Result<Checkpoint, VmError>, was: Standing, now: Standing)
    requires CheckpointLeaves(r, was, now)
    ensures WellIn(was) ==>
              && (KeptIn(was, now) <==> r.Ok? || (r.error != HalfRemoved && !LosesInstance(r.error)))
              && (r.Ok? || r.error != HalfRemoved ==> WellIn(now))
    ensures r.Err? && !LosesInstance(r.error) && was.manager != Some(SandboxKind) ==> KeptIn(was, now)
  {
  }

  // ----- facts about recorded instances and touched workspaces -----

  ghost predicate GoodPlace(cwd: string, pid: string) { PidFits(pid) && IsAbs(cwd) && Clean(cwd) == cwd }

  function WorkspaceOf(cwd: string, pid: string, config: Config): string {
    ResolveWorkspace(cwd, pid, config.runtimeSpec.sandbox.workspace)
  }

  lemma FreshlyRecorded(info: InstanceInfo, cwd: string, pid: string, backend: string, config: Config)
    requires GoodPlace(cwd, pid) && HasRuntimeSpec(config.runtimeSpec)
    requires Recorded(info, backend, WorkspaceOf(cwd, pid, config), config.runtimeSpec, config.runtimeEnv)
    ensures WellRecorded(info, cwd, pid)
  {
    RelaunchSameWorkspace(cwd, pid, config.runtimeSpec.sandbox.workspace);
  }

  lemma TouchedTransitive(a: Dirs, b: Dirs, c: Dirs, workspace: string)
    requires WorkspaceTouched(a, b, workspace) && WorkspaceTouched(b, c, workspace)
    ensures WorkspaceTouched(a, c, workspace)
  {
    var tmp := TmpDir(workspace);
    hide Grown, TmpDir;
    GrownTransitive(At(a, workspace), At(b, workspace), At(c, workspace));
    GrownTransitive(At(a, tmp), At(b, tmp), At(c, tmp));
  }

  lemma GrownReflexive(t: Tree)
    ensures Grown(t, t)
  {
  }

  lemma TouchedKeeps(a: Dirs, b: Dirs, workspace: string)
    requires WorkspaceTouched(a, b, workspace) && workspace in a
    ensures workspace in b
  {
  }

  lemma TouchedOutside(a: Dirs, b: Dirs, workspace: string)
    requires WorkspaceTouched(a, b, workspace)
    ensures SameOutside(a, b, {workspace, TmpDir(workspace)})
  {
  }

  lemma PutOutside(a: Dirs, b: Dirs, c: Dirs, workspace: string)
    requires SameOutside(a, b, {workspace, TmpDir(workspace)}) && OnlyAt(b, c, workspace)
    ensures SameOutside(a, c, {workspace, TmpDir(workspace)})
  {
    hide TmpDir;
  }

  /** The workspace holds what seeding made of `base`, which is what was there before, both
      with at most layout directories more. */
  ghost predicate SeededAt(before: Dirs, after: Dirs, workspace: string, seed: Seeding, base: Tree) {
    && Grown(At(before, workspace), base)
    && seed(base).Some? && workspace in after && Grown(seed(base).value, after[workspace])
  }

  /** Created, seeded and brought up. */
  lemma SeededThen(a: Dirs, b: Dirs, c: Dirs, d: Dirs, workspace: string, seed: Seeding)
    requires WorkspaceTouched(a, b, workspace) && workspace in b && seed(b[workspace]).Some?
    requires c == b[workspace := seed(b[workspace]).value] && WorkspaceTouched(c, d, workspace)
    ensures SeededAt(a, d, workspace, seed, b[workspace])
    ensures SameOutside(a, d, {workspace, TmpDir(workspace)})
  {
    hide Grown, TmpDir;
    var paths := {workspace, TmpDir(workspace)};
    forall q | q !in paths
      ensures Look(a, q) == Look(d, q)
    {
      assert Look(b, q) == Look(c, q);
    }
  }

  lemma TouchedWithout(a: Dirs, b: Dirs, workspace: string, path: string)
    requires WorkspaceTouched(a, b, workspace) && path != workspace && path != TmpDir(workspace)
    ensures WorkspaceTouched(a - {path}, b - {path}, workspace)
  {
    hide Grown, TmpDir;
    forall q
      ensures Look(a - {path}, q) == (if q == path then None else Look(a, q))
      ensures Look(b - {path}, q) == (if q == path then None else Look(b, q))
    {
    }
  }

  /** Temporary names the operating system has not used. */
  predicate FreshNames(dirs: Dirs, workspace: string, staged: string, backup: string) {
    && staged !in dirs && backup !in dirs && staged != backup
    && staged != workspace && staged != TmpDir(workspace)
    && backup != workspace && backup != TmpDir(workspace)
  }

  /** The names that the code gives its temporary directories are such, unless they exist. */
  lemma SiblingNames(dirs: Dirs, parent: Segments, name: string, stageStamp: string, backupStamp: string)
    requires AllNames(parent + [name]) && '/' !in stageStamp && '/' !in backupStamp
    ensures var workspace := AbsText(parent + [name]);
            var staged, backup := StagePath(workspace, stageStamp), BackupPath(workspace, backupStamp);
            FreshNames(dirs, workspace, staged, backup) <==> staged !in dirs && backup !in dirs
  {
    hide StagePath, BackupPath, TmpDir;
    SiblingPaths(parent, name, stageStamp, backupStamp);
    TmpDirBeside(parent, name);
    var staged, backup := name + ".restore-" + stageStamp, name + ".backup-" + backupStamp;
    assert name in parent + [name] && forall seg | seg in parent :: seg in parent + [name];
    assert staged[|name|] == '.' && backup[|name|] == '.' && (name + "-tmp")[|name|] == '-';
    assert staged == name + (".restore-" + stageStamp) && backup == name + (".backup-" + backupStamp);
    BesideDiffer(parent, staged, name + "-tmp");
    BesideDiffer(parent, backup, name + "-tmp");
  }

  function SwapFor(dirs: Dirs, workspace: string, staged: string, backup: string): Swap {
    Swap(workspace, staged, backup, workspace in dirs)
  }

  lemma FreshSwapFor(dirs: Dirs, workspace: string, staged: string, backup: string, tree: Tree)
    requires FreshNames(dirs, workspace, staged, backup)
    ensures FreshSwap(dirs[staged := tree], SwapFor(dirs, workspace, staged, backup))
    ensures workspace in dirs[staged := tree] <==> workspace in dirs
  {
  }

  lemma LookPromoted(dirs: Dirs, workspace: string, staged: string, backup: string, tree: Tree, q: string)
    requires FreshNames(dirs, workspace, staged, backup)
    ensures FreshSwap(dirs[staged := tree], SwapFor(dirs, workspace, staged, backup))
    ensures Look(Promoted(dirs[staged := tree], SwapFor(dirs, workspace, staged, backup)), q)
         == if q == workspace then Some(tree) else if q == staged then None
            else if q == backup then Look(dirs, workspace) else Look(dirs, q)
  {
    hide TmpDir;
  }

  lemma LookRolledBack(after: Dirs, s: Swap, q: string)
    requires s.workspace != s.backup && (s.hasBackup ==> s.backup in after)
    ensures Look(RolledBack(after, s), q)
         == if q == s.workspace then (if s.hasBackup then Look(after, s.backup) else None)
            else if q == s.backup && s.hasBackup then None else Look(after, q)
  {
  }

  /** The rollback undoes the swap whatever the new runtime's creation has added. */
  lemma RollbackTouched(dirs: Dirs, workspace: string, staged: string, backup: string, tree: Tree, after: Dirs)
    requires FreshNames(dirs, workspace, staged, backup)
    requires FreshSwap(dirs[staged := tree], SwapFor(dirs, workspace, staged, backup))
    requires WorkspaceTouched(Promoted(dirs[staged := tree], SwapFor(dirs, workspace, staged, backup)), after,
                              workspace)
    ensures var s := SwapFor(dirs, workspace, staged, backup);
            && (s.hasBackup ==> backup in after) && Look(after, backup) == Look(dirs, workspace)
            && var back := RolledBack(after, s);
               && WorkspaceTouched(dirs, back, workspace) && staged !in back
               && Look(back, workspace) == Look(dirs, workspace)
  {
    hide TmpDir, Grown, Promoted, RolledBack;
    var s, tmp := SwapFor(dirs, workspace, staged, backup), TmpDir(workspace);
    var promoted := Promoted(dirs[staged := tree], s);
    LookPromoted(dirs, workspace, staged, backup, tree, backup);
    assert Look(after, backup) == Look(dirs, workspace);
    assert s.hasBackup ==> backup in after;
    var back := RolledBack(after, s);
    GrownReflexive(At(dirs, workspace));
    forall q | q != workspace && q != tmp
      ensures Look(dirs, q) == Look(back, q)
    {
      LookPromoted(dirs, workspace, staged, backup, tree, q);
      LookRolledBack(after, s, q);
    }
    LookRolledBack(after, s, workspace);
    LookPromoted(dirs, workspace, staged, backup, tree, tmp);
    LookRolledBack(after, s, tmp);
    assert Look(back, staged) == None;
  }

  /** What a successful restore leaves on the host. */
  ghost predicate Restored(before: Dirs, tree: Tree, after: Dirs, workspace: string, backup: string) {
    && workspace in after && Grown(tree, after[workspace])
    && SameOutside(before, after, {workspace, TmpDir(workspace), backup})
  }

  /** What a commit leaves of the old tree: nothing, or what a failed removal left. */
  ghost predicate BackupGone(before: Dirs, after: Dirs, workspace: string, backup: string, committed: bool) {
    && (backup in after <==> workspace in before && !committed)
    && (backup in after ==> IsPart(after[backup], before[workspace]))
  }

  lemma CommitRestored(dirs: Dirs, workspace: string, staged: string, backup: string, tree: Tree, after: Dirs,
                       last: Dirs, committed: bool)
    requires FreshNames(dirs, workspace, staged, backup)
    requires FreshSwap(dirs[staged := tree], SwapFor(dirs, workspace, staged, backup))
    requires WorkspaceTouched(Promoted(dirs[staged := tree], SwapFor(dirs, workspace, staged, backup)), after,
                              workspace)
    requires committed ==> last == Committed(after, SwapFor(dirs, workspace, staged, backup))
    requires !committed ==>
               && backup in after && backup in last && last == after[backup := last[backup]]
               && IsPart(last[backup], after[backup])
    ensures Restored(dirs, tree, last, workspace, backup) && staged !in last
    ensures BackupGone(dirs, last, workspace, backup, committed)
  {
    hide TmpDir, Grown, Promoted;
    var s, tmp := SwapFor(dirs, workspace, staged, backup), TmpDir(workspace);
    LookPromoted(dirs, workspace, staged, backup, tree, workspace);
    LookPromoted(dirs, workspace, staged, backup, tree, backup);
    assert Look(after, backup) == Look(dirs, workspace);
    forall q | q != workspace && q != tmp && q != backup
      ensures Look(dirs, q) == Look(last, q)
    {
      LookPromoted(dirs, workspace, staged, backup, tree, q);
      assert Look(after, q) == Look(last, q);
    }
    assert Look(last, staged) == Look(dirs, staged);
  }

  /** The directories after the clean-ups of a failed restore, once the staging directory
      is gone as well. */
  lemma FailureDirs(dirs: Dirs, workspace: string, staged: string, backup: string, tree: Tree, swap: Option<Swap>,
                    before: Dirs, relaunched: bool, after: Dirs)
    requires FreshNames(dirs, workspace, staged, backup)
    requires swap == None ==> before == dirs[staged := tree]
    requires swap.Some? ==>
               && swap.value == SwapFor(dirs, workspace, staged, backup) && FreshSwap(dirs[staged := tree], swap.value)
               && WorkspaceTouched(Promoted(dirs[staged := tree], swap.value), before, workspace)
               && (swap.value.hasBackup ==> backup in before)
    requires var back := if swap.Some? then RolledBack(before, swap.value) else before;
             if relaunched then WorkspaceTouched(back, after, workspace) else after == back
    ensures WorkspaceTouched(dirs, after - {staged}, workspace)
    ensures !relaunched ==> Look(after - {staged}, workspace) == Look(dirs, workspace)
  {
    hide TmpDir, Grown, Promoted, RolledBack, WorkspaceTouched;
    var back := if swap.Some? then RolledBack(before, swap.value) else before;
    assert dirs - {staged} == dirs;
    if swap.Some? {
      RollbackTouched(dirs, workspace, staged, backup, tree, before);
      TouchedWithout(dirs, back, workspace, staged);
      assert back - {staged} == back;
    } else {
      assert back - {staged} == dirs;
      Untouched(dirs, workspace);
    }
    if relaunched {
      TouchedWithout(back, after, workspace, staged);
      TouchedTransitive(dirs, back - {staged}, after - {staged}, workspace);
    }
  }

  // ----- the old tree through a restore -----

  /** The old tree is under the workspace path, up to layout directories that have been
      added to it, or under the backup path. */
  ghost predicate Survives(dirs: Dirs, workspace: string, backup: string, content: Tree) {
    || (workspace in dirs && Grown(content, dirs[workspace]))
    || (backup in dirs && dirs[backup] == content)
  }

  /** The same when there may have been no old tree. */
  ghost predicate Safe(dirs: Dirs, workspace: string, backup: string, content: Option<Tree>) {
    content.None? || Survives(dirs, workspace, backup, content.value)
  }

  /** Every state that `history` adds to `before` is safe. */
  ghost predicate AllSafe(before: seq<Dirs>, history: seq<Dirs>, workspace: string, backup: string,
                          content: Option<Tree>) {
    before <= history && forall k | |before| <= k < |history| :: Safe(history[k], workspace, backup, content)
  }

  /** Every added state is safe up to step `settled`.  After a failure that is the end;
      otherwise at most `slack` steps follow. */
  ghost predicate SafeUntil(before: seq<Dirs>, history: seq<Dirs>, settled: nat, failed: bool, slack: nat,
                            workspace: string, backup: string, content: Option<Tree>) {
    && before <= history && |before| <= settled <= |history|
    && (if failed then settled == |history| else |history| <= settled + slack)
    && AllSafe(before, history[..settled], workspace, backup, content)
  }

  lemma SafeSoFar(before: seq<Dirs>, history: seq<Dirs>, slack: nat, workspace: string, backup: string,
                  content: Option<Tree>)
    requires AllSafe(before, history, workspace, backup, content)
    ensures SafeUntil(before, history, |history|, true, slack, workspace, backup, content)
  {
    assert history[..|history|] == history;
  }

  lemma SafeEnough(before: seq<Dirs>, mid: seq<Dirs>, history: seq<Dirs>, slack: nat, workspace: string, backup: string,
                   content: Option<Tree>)
    requires AllSafe(before, mid, workspace, backup, content) && mid <= history && |history| <= |mid| + slack
    ensures SafeUntil(before, history, |mid|, false, slack, workspace, backup, content)
  {
    assert history[..|mid|] == mid;
  }

  lemma AllOfIt(before: seq<Dirs>, history: seq<Dirs>, settled: nat, slack: nat, workspace: string, backup: string,
                content: Option<Tree>)
    requires SafeUntil(before, history, settled, true, slack, workspace, backup, content)
    ensures AllSafe(before, history, workspace, backup, content)
  {
    assert history[..settled] == history;
  }

  lemma SafeChain(before: seq<Dirs>, mid: seq<Dirs>, history: seq<Dirs>, workspace: string, backup: string,
                  content: Option<Tree>)
    requires AllSafe(before, mid, workspace, backup, content) && AllSafe(mid, history, workspace, backup, content)
    ensures AllSafe(before, history, workspace, backup, content)
  {
    hide Safe;
    forall k | |before| <= k < |history|
      ensures Safe(history[k], workspace, backup, content)
    {
      if k < |mid| { assert mid[k] == history[k]; }
    }
  }

  lemma SafeUntilFrom(before: seq<Dirs>, mid: seq<Dirs>, history: seq<Dirs>, settled: nat, failed: bool, slack: nat,
                      workspace: string, backup: string, content: Option<Tree>)
    requires AllSafe(before, mid, workspace, backup, content)
    requires SafeUntil(mid, history, settled, failed, slack, workspace, backup, content)
    ensures SafeUntil(before, history, settled, failed, slack, workspace, backup, content)
  {
    SafeChain(before, mid, history[..settled], workspace, backup, content);
  }

  lemma SafeTouched(a: Dirs, b: Dirs, workspace: string, backup: string, content: Option<Tree>)
    requires Safe(a, workspace, backup, content) && WorkspaceTouched(a, b, workspace)
    requires backup != workspace && backup != TmpDir(workspace)
    ensures Safe(b, workspace, backup, content)
  {
    hide TmpDir, Grown;
    assert Look(a, backup) == Look(b, backup);
    if content.Some? && workspace in a && Grown(content.value, a[workspace]) {
      GrownTransitive(content.value, a[workspace], At(b, workspace));
    }
  }

  lemma SafeElsewhere(a: Dirs, b: Dirs, path: string, workspace: string, backup: string, content: Option<Tree>)
    requires Safe(a, workspace, backup, content) && OnlyAt(a, b, path) && path != workspace && path != backup
    ensures Safe(b, workspace, backup, content)
  {
    hide Grown;
    assert Look(a, backup) == Look(b, backup) && Look(a, workspace) == Look(b, workspace);
  }

  lemma SafeIntact(dirs: Dirs, s: Swap, content: Tree)
    requires Intact(dirs, s, content)
    ensures Survives(dirs, s.workspace, s.backup, content)
  {
    GrownReflexive(content);
  }

  lemma SafeWhileTouched(a: Dirs, before: seq<Dirs>, history: seq<Dirs>, workspace: string, backup: string,
                         content: Option<Tree>)
    requires Safe(a, workspace, backup, content) && before <= history && TouchedSince(a, history, |before|, workspace)
    requires backup != workspace && backup != TmpDir(workspace)
    ensures AllSafe(before, history, workspace, backup, content)
  {
    forall k | |before| <= k < |history|
      ensures Safe(history[k], workspace, backup, content)
    {
      SafeTouched(a, history[k], workspace, backup, content);
    }
  }

  lemma SafeWhileElsewhere(a: Dirs, before: seq<Dirs>, history: seq<Dirs>, path: string, workspace: string,
                           backup: string, content: Option<Tree>)
    requires Safe(a, workspace, backup, content) && before <= history && OnlyAtSince(a, history, |before|, path)
    requires path != workspace && path != backup
    ensures AllSafe(before, history, workspace, backup, content)
  {
    forall k | |before| <= k < |history|
      ensures Safe(history[k], workspace, backup, content)
    {
      SafeElsewhere(a, history[k], path, workspace, backup, content);
    }
  }

  lemma SafeWhileIntact(now: Dirs, before: seq<Dirs>, history: seq<Dirs>, s: Swap, content: Option<Tree>)
    requires before <= history
    requires content.Some? ==> IntactSince(history, |before|, s, content.value) && Intact(now, s, content.value)
    ensures AllSafe(before, history, s.workspace, s.backup, content) && Safe(now, s.workspace, s.backup, content)
  {
    if content.Some? {
      SafeIntact(now, s, content.value);
      forall k | |before| <= k < |history|
        ensures Safe(history[k], s.workspace, s.backup, content)
      {
        SafeIntact(history[k], s, content.value);
      }
    }
  }

  lemma SafeAtStart(dirs: Dirs, now: Dirs, workspace: string, backup: string)
    requires Look(now, workspace) == Look(dirs, workspace)
    ensures Safe(now, workspace, backup, Look(dirs, workspace))
  {
    if workspace in dirs { GrownReflexive(dirs[workspace]); }
  }

  lemma SafeNothing(history: seq<Dirs>, workspace: string, backup: string, content: Option<Tree>)
    ensures AllSafe(history, history, workspace, backup, content)
  {
  }

  lemma OnlyAtRemoval(before: Dirs, after: Dirs, path: string)
    requires after == before - {path} || (path in after && after == before[path := after[path]])
    ensures OnlyAt(before, after, path)
  {
  }

  /** One more step, elsewhere: the final removal of the staging directory. */
  lemma SafeAfterClean(before: seq<Dirs>, steps: seq<Dirs>, settled: nat, failed: bool, done: Dirs, now: Dirs,
                       staged: string, workspace: string, backup: string, content: Option<Tree>)
    requires SafeUntil(before, steps, settled, failed, 1, workspace, backup, content)
    requires failed ==> Safe(done, workspace, backup, content)
    requires OnlyAt(done, now, staged) && staged != workspace && staged != backup
    ensures SafeUntil(before, steps + [now], if failed then |steps| + 1 else settled, failed, 2, workspace, backup,
                      content)
  {
    var history := steps + [now];
    assert history[..settled] == steps[..settled];
    if failed {
      SafeElsewhere(done, now, staged, workspace, backup, content);
      assert steps[..settled] == steps && history[..|steps| + 1] == history;
      SafeChain(before, steps, history, workspace, backup, content);
    }
  }

  lemma TouchedSinceFrom(a: Dirs, b: Dirs, steps: seq<Dirs>, history: seq<Dirs>, start: nat, workspace: string)
    requires steps <= history && TouchedSince(a, steps, start, workspace)
    requires WorkspaceTouched(a, b, workspace) && TouchedSince(b, history, |steps|, workspace)
    ensures TouchedSince(a, history, start, workspace)
  {
    hide WorkspaceTouched;
    forall k | start <= k < |history|
      ensures WorkspaceTouched(a, history[k], workspace)
    {
      if k < |steps| {
        assert steps[k] == history[k];
      } else {
        TouchedTransitive(a, b, history[k], workspace);
      }
    }
  }

  // ----- the VM -----

  lemma BackendVisible(k: Kind)
    ensures !IsBlank(BackendName(k)) && BackendName(k) != ""
  {
    VisibleKept(BackendName(k));
  }

  /** What a list of process tags, with the module's, says about the runtime. */
  datatype Tags = Tags(spec: Result<RuntimeSpec, ConfigError>, env: seq<string>)

  /** What seeding from the VM's module makes of a workspace, if it succeeds. */
  type Seeding = Tree -> Option<Tree>

  predicate Specific(tags: Tags) { tags.spec.Ok? ==> HasRuntimeSpec(tags.spec.value) }

  datatype Call =
    | SpawnCall(tags: Tags, seed: Seeding) | CheckpointCall
    | RestoreCall(cp: Option<Checkpoint>, staged: string, backup: string)

  datatype Plan = Plan(workspace: string, kind: Kind, config: Config, checkpoint: Checkpoint)

  class VmDocker {
    const rt: Runtimes
    const host: Host
    const processTags: Tags
    var instanceInfo: Option<InstanceInfo>
    var runtimeManager: Option<Kind>
    /** Whether a clean-up action of the last call has failed.  The code drops such errors;
        the flag is there for the contracts. */
    var cleanupFailed: bool

    constructor (rt: Runtimes, host: Host, tags: Tags)
      requires rt.Valid() && rt.Empty() && GoodPlace(rt.cwd, rt.pid) && Specific(tags)
      ensures Valid() && Owned() && instanceInfo == None && !cleanupFailed
      ensures this.rt == rt && this.host == host && processTags == tags
    {
      this.rt, this.host, processTags := rt, host, tags;
      instanceInfo, runtimeManager := None, None;
      cleanupFailed := false;
    }

    ghost function Frame(): set<object> { {this, host} + rt.Repr() }

    ghost predicate Valid()
      reads rt.Repr()
    {
      rt.Valid() && GoodPlace(rt.cwd, rt.pid) && Specific(processTags)
    }

    /** The VM has an instance exactly when one manager holds it, and then the other does
        not; the managers' ports balance. */
    ghost predicate Owned()
      reads `instanceInfo, `runtimeManager, rt.Repr()
    {
      rt.sandbox.Valid() && OwnedIn(Now())
    }

    ghost predicate OwnedIn(s: Standing) {
      match s.info
      case None => s.held == NOTHING
      case Some(info) =>
        && LiveIn(s).Some? && s.held == NOTHING.Put(s.manager.value, LiveIn(s))
        && Describes(info, s.manager.value, LiveIn(s).value)
    }

    /** `info` describes what manager `k` holds. */
    ghost predicate Describes(info: InstanceInfo, k: Kind, live: Live) {
      && SameLaunch(info, live.info)
      && info.backend == BackendName(k) && WellRecorded(info, rt.cwd, rt.pid)
    }

    /** A running instance made from `config`, with the agent in `state`. */
    ghost predicate Runs(k: Kind, config: Config, state: string)
      reads `instanceInfo, `runtimeManager, rt.Repr()
    {
      && Owned() && runtimeManager == Some(k) && instanceInfo.Some?
      && instanceInfo.value.workspace == WorkspaceOf(rt.cwd, rt.pid, config)
      && instanceInfo.value.runtimeSpec == WithWorkspace(config.runtimeSpec, RootFromPath(instanceInfo.value.workspace))
      && instanceInfo.value.runtimeEnv == config.runtimeEnv
      && rt.Held().Get(k).value.info.status == Running && rt.Held().Get(k).value.agent == Up(Some(state))
    }

    ghost function Now(): Standing
      reads `instanceInfo, `runtimeManager, rt.Repr()
    {
      Standing(instanceInfo, runtimeManager, rt.Held())
    }

    // ----- launching -----

    /** `restoreRuntimeLaunch`: creates, starts and polls an instance and gives its agent
        `state`; on failure the instance is removed again. */
    method RestoreRuntimeLaunch(k: Kind, config: Config, state: string) returns (ok: bool)
      requires Valid() && instanceInfo == None && (rt.Empty() || cleanupFailed) && runtimeManager == Some(k)
      requires HasRuntimeSpec(config.runtimeSpec)
      modifies Frame()
      ensures Valid() && rt.Others() == old(rt.Others()) && runtimeManager == Some(k)
      ensures old(cleanupFailed) ==> cleanupFailed
      ensures ok && !cleanupFailed ==> Runs(k, config, state)
      ensures ok ==> WorkspaceOf(rt.cwd, rt.pid, config) in host.dirs && cleanupFailed == old(cleanupFailed)
      ensures !ok ==> instanceInfo == None && (rt.Empty() || cleanupFailed)
      ensures WorkspaceTouched(old(host.dirs), host.dirs, WorkspaceOf(rt.cwd, rt.pid, config))
      ensures old(host.history) <= host.history
      ensures TouchedSince(old(host.dirs), host.history, |old(host.history)|, WorkspaceOf(rt.cwd, rt.pid, config))
    {
      hide WorkspaceTouched, WellRecorded, GoodPlace, ResolveWorkspace, RootFromPath, HasRuntimeSpec, Runtimes.Valid,
        Runtimes.Others, TouchedSince, Runtimes.Held;
      var workspace := WorkspaceOf(rt.cwd, rt.pid, config);
      var created := rt.Create(host, k, config.runtimeSpec, config.runtimeEnv);
      if created.Err? {
        return false;
      }
      FreshlyRecorded(created.value, rt.cwd, rt.pid, BackendName(k), config);
      instanceInfo := Some(created.value);
      ghost var mid, steps := host.dirs, host.history;
      ok := BringUp(k, workspace, state);
      TouchedTransitive(old(host.dirs), mid, host.dirs, workspace);
      TouchedKeeps(mid, host.dirs, workspace);
      TouchedSinceFrom(old(host.dirs), mid, steps, host.history, |old(host.history)|, workspace);
      if !ok {
        RemoveFailedInstance(k);
      }
    }

    /** The steps after an instance exists. */
    method BringUp(k: Kind, workspace: string, state: string) returns (ok: bool)
      requires Valid() && rt.Held().Get(k).Some? && rt.Held().Get(k).value.info.workspace == workspace
      modifies rt.Repr(), host
      ensures Valid() && rt.Others() == old(rt.Others())
      ensures rt.Held() == old(rt.Held()).Put(k, rt.Held().Get(k)) && (rt.sandbox.Valid() <==> old(rt.sandbox.Valid()))
      ensures rt.Held().Get(k).Some? && SameLaunch(old(rt.Held()).Get(k).value.info, rt.Held().Get(k).value.info)
      ensures ok ==> rt.Held().Get(k).value.agent == Up(Some(state)) && rt.Held().Get(k).value.info.status == Running
      ensures WorkspaceTouched(old(host.dirs), host.dirs, workspace)
      ensures old(host.history) <= host.history
      ensures TouchedSince(old(host.dirs), host.history, |old(host.history)|, workspace)
    {
      hide WorkspaceTouched, Runtimes.Held;
      Untouched(host.dirs, workspace);
      ok := rt.Start(k);
      if !ok {
        return;
      }
      var ready: bool := *;
      if !ready {
        return false;
      }
      ok := rt.AgentLoad(host, k, workspace, state);
    }

    /** The deferred removal of an instance that did not come up; its error is dropped. */
    method RemoveFailedInstance(k: Kind)
      requires Valid() && rt.Held().Get(k).Some?
      modifies this, rt.Repr()
      ensures Valid() && rt.Others() == old(rt.Others())
      ensures instanceInfo == None && runtimeManager == old(runtimeManager)
      ensures old(cleanupFailed) ==> cleanupFailed
      ensures rt.Held() == old(rt.Held()).Put(k, rt.Held().Get(k)) && (rt.sandbox.Valid() <==> old(rt.sandbox.Valid()))
      ensures rt.Held().Get(k).None? || cleanupFailed
    {
      hide WellRecorded, GoodPlace, HasRuntimeSpec, Runtimes.Valid, Runtimes.Others, Runtimes.Held;
      var removed := rt.Remove(k);
      cleanupFailed := cleanupFailed || removed != Removed;
      instanceInfo := None;
    }

    // ----- restoring -----

    /** `restoreTargetWorkspace` */
    function Target(): string
      reads `instanceInfo
      requires processTags.spec.Ok?
    {
      if instanceInfo.Some? && !IsBlank(instanceInfo.value.workspace) then instanceInfo.value.workspace
      else ResolveWorkspace(rt.cwd, rt.pid, processTags.spec.value.sandbox.workspace)
    }

    /** Everything that is decided before the host is touched. */
    function MakePlan(cp: Option<Checkpoint>): Result<Plan, VmError>
      reads `instanceInfo
    {
      if cp.None? then Err(BadSnapshot)
      else if cp.value.format != CHECKPOINT_FORMAT then Err(BadFormat)
      else if processTags.spec.Err? then Err(ConfigFailed(processTags.spec.error))
      else
        var config := ResolveRestore(cp.value, processTags.spec.value, processTags.env, Target());
        if config.Err? then Err(ConfigFailed(config.error))
        else
          var k := rt.GetManager(config.value.runtimeSpec.backend);
          if k.None? then Err(NoManager) else Ok(Plan(Target(), k.value, config.value, cp.value))
    }

    lemma PlanFacts(cp: Option<Checkpoint>)
      requires Valid() && Owned() && MakePlan(cp).Ok?
      ensures var plan := MakePlan(cp).value;
              && IsAbs(plan.workspace) && WorkspaceOf(rt.cwd, rt.pid, plan.config) == plan.workspace
              && HasRuntimeSpec(plan.config.runtimeSpec)
              && plan.config.runtimeSpec.backend == BackendName(plan.kind)
              && (instanceInfo.Some? ==> plan.workspace == instanceInfo.value.workspace)
    {
      hide ResolveWorkspace, RootFromPath, HasRuntimeSpec, IsBlank, ResolveRestore;
      var plan := MakePlan(cp).value;
      if instanceInfo.Some? {
        AbsoluteNotBlank(instanceInfo.value.workspace);
      } else {
        RelaunchSameWorkspace(rt.cwd, rt.pid, processTags.spec.value.sandbox.workspace);
        AbsoluteNotBlank(plan.workspace);
      }
      ResolveFacts(plan.checkpoint, processTags.spec.value, processTags.env, plan.workspace);
      ManagedBackend(plan.config.runtimeSpec.backend, plan.kind);
    }

    /** The old workspace, or without an instance the one below the root the tags name. */
    function RestoredPlace(before: Option<InstanceInfo>): string {
      if before.Some? then before.value.workspace
      else if processTags.spec.Ok? then ResolveWorkspace(rt.cwd, rt.pid, processTags.spec.value.sandbox.workspace)
      else ""
    }

    /** Why a checkpoint is refused before anything is touched: its format, the tags, a
        backend that its own specification contradicts or that is missing, or one that no
        manager serves. */
    function Refusal(cp: Option<Checkpoint>): Option<VmError> {
      if cp.None? then Some(BadSnapshot)
      else if cp.value.format != "vmdocker.workspace.v1" then Some(BadFormat)
      else if processTags.spec.Err? then Some(ConfigFailed(processTags.spec.error))
      else
        var own, named := cp.value.runtimeSpec, cp.value.backend;
        var backend :=
          if named != "" then named else if SaysSomething(own) then own.backend else processTags.spec.value.backend;
        if named != "" && SaysSomething(own) && own.backend !in {"", named} then Some(ConfigFailed(BackendMismatch))
        else if backend == "" then Some(ConfigFailed(EmptyBackend))
        else if (backend == "docker" && rt.dockerWorks) || (backend == "sandbox" && rt.system != Linux) then None
        else Some(NoManager)
    }

    /** Whether, where and as what a restore launches. */
    lemma PlanMeans(cp: Option<Checkpoint>)
      requires Valid() && Owned()
      ensures MakePlan(cp).Err? ==> Refusal(cp) == Some(MakePlan(cp).error)
      ensures MakePlan(cp).Ok? ==>
                && Refusal(cp) == None && cp.Some? && cp.value.format == "vmdocker.workspace.v1" && processTags.spec.Ok?
                && var plan, spec := MakePlan(cp).value, processTags.spec.value;
                   && plan.checkpoint == cp.value && plan.workspace == RestoredPlace(instanceInfo)
                   && LaunchedFrom(cp.value, spec, processTags.env, plan.config.runtimeSpec, plan.config.runtimeEnv)
    {
      hide ResolveWorkspace, RootFromPath, HasRuntimeSpec, IsBlank, LaunchedFrom, NormalizeRoot, Runtimes.GetManager,
        SaysSomething, Runtimes.Valid;
      if instanceInfo.Some? {
        AbsoluteNotBlank(instanceInfo.value.workspace);
      }
      if cp.Some? && processTags.spec.Ok? {
        var resolved := ResolveRestore(cp.value, processTags.spec.value, processTags.env, Target());
        SpecExact(cp.value.runtimeSpec);
        if resolved.Ok? {
          ResolvedFrom(cp.value, processTags.spec.value, processTags.env, Target());
          BackendChosen(cp.value, processTags.spec.value, processTags.env, Target());
          rt.ManagerExact(resolved.value.runtimeSpec.backend);
        }
      }
    }

    lemma ManagedBackend(backend: string, k: Kind)
      requires backend != "" && rt.GetManager(backend) == Some(k)
      ensures backend == BackendName(k) && !IsBlank(backend)
    {
      BackendVisible(k);
    }

    /** Before the swap: the running instance answers with its state and is removed. */
    method StopCurrent() returns (err: Option<VmError>, saved: Option<Saved>)
      requires Valid() && Owned()
      modifies this, rt.Repr()
      ensures Valid() && rt.Others() == old(rt.Others())
      ensures runtimeManager == old(runtimeManager) && cleanupFailed == old(cleanupFailed)
      ensures old(instanceInfo) == None ==> err == None && saved == None && instanceInfo == None && rt.Empty()
      ensures err.Some? ==>
                && saved == None && err.value in {AgentFailed, RemoveFailed, HalfRemoved}
                && Owned() && AfterErrorIn(err.value, old(Now()), Now())
      ensures DownIn(old(Now())) ==> err == Some(AgentFailed) && Owned() && Now() == old(Now())
      ensures err == None && old(instanceInfo).Some? ==>
                && instanceInfo == None && rt.Empty()
                && saved.Some? && SavedFrom(saved.value, old(Now()))
    {
      hide WellRecorded, GoodPlace, ResolveWorkspace, RootFromPath, HasRuntimeSpec, Runtimes.Valid, Runtimes.Others,
        Runtimes.Held, KeptIn, HalvedIn, CurrentConfig, OwnedIn, SavedFrom;
      ghost var was := Now();
      OwnedFacts(was);
      KeptReflexive(was);
      if instanceInfo == None {
        return None, None;
      }
      var info, k := instanceInfo.value, runtimeManager.value;
      var state := rt.AgentCheckpoint(k);
      if state.None? {
        return Some(AgentFailed), None;
      }
      AfterAnswer(was, Now(), state.value);
      var config := CurrentConfig(info, processTags.spec, processTags.env);
      CurrentIsRecorded(info, rt.cwd, rt.pid, processTags.spec, processTags.env);
      ghost var answered := Now();
      var removed := rt.Remove(k);
      if removed != Removed {
        AfterHalf(was, answered, Now(), removed);
        return Some(if removed == Halfway then HalfRemoved else RemoveFailed), None;
      }
      instanceInfo := None;
      return None, Some(Saved(k, config.value, state.value));
    }

    lemma OwnedFacts(s: Standing)
      requires OwnedIn(s)
      ensures s.info == None ==> s.held == NOTHING
      ensures s.info.Some? ==> LiveIn(s).Some? && WellRecorded(s.info.value, rt.cwd, rt.pid)
    {
    }

    /** The agent has answered with its state. */
    lemma AfterAnswer(was: Standing, now: Standing, state: string)
      requires OwnedIn(was) && LiveIn(was).Some? && was.info.Some?
      requires LiveIn(was).value.agent.Up?
      requires LiveIn(was).value.agent.state.Some? ==> LiveIn(was).value.agent.state == Some(state)
      requires now == was.(held := was.held.Put(was.manager.value, Some(LiveIn(was).value.(agent := Up(Some(state))))))
      ensures OwnedIn(now) && KeptIn(was, now) && LiveIn(now).Some?
      ensures now.held.Put(was.manager.value, None) == NOTHING
      ensures SavedFrom(Saved(was.manager.value, Config(was.info.value.runtimeSpec, was.info.value.runtimeEnv), state),
                        was)
    {
      hide WellRecorded;
    }

    /** The removal has failed. */
    lemma AfterHalf(was: Standing, answered: Standing, now: Standing, removed: Removal)
      requires OwnedIn(answered) && answered.info.Some? && KeptIn(was, answered) && removed != Removed
      requires was.info == answered.info && was.manager == answered.manager && LiveIn(answered).Some?
      requires removed == NotRemoved ==> now == answered
      requires removed == Halfway ==>
                 && answered.manager == Some(SandboxKind)
                 && var down := LiveIn(answered).value.(agent := Down);
                 now == answered.(held := answered.held.Put(SandboxKind, Some(down)))
      ensures OwnedIn(now) && AfterErrorIn(if removed == Halfway then HalfRemoved else RemoveFailed, was, now)
    {
      hide WellRecorded;
    }

    /** `saved` is the launch of the instance in `was`, with the state its agent answered. */
    ghost predicate SavedFrom(saved: Saved, was: Standing) {
      && was.info.Some? && was.manager == Some(saved.kind) && LiveIn(was).Some?
      && saved.config == Config(was.info.value.runtimeSpec, was.info.value.runtimeEnv)
      && LiveIn(was).value.agent.Up?
      && (LiveIn(was).value.agent.state.Some? ==> LiveIn(was).value.agent.state == Some(saved.state))
      && was.info.value.backend == BackendName(saved.kind) && WellRecorded(was.info.value, rt.cwd, rt.pid)
    }

    /** `handleRestoreFailure`: first the workspace and then the previous runtime; errors
        are dropped.  Whatever fails, the old tree `content` survives every step. */
    method HandleRestoreFailure(swap: Option<Swap>, saved: Option<Saved>, ghost workspace: string, ghost backup: string,
                                ghost content: Option<Tree>)
      requires Valid()
      requires swap.Some? ==>
                swap.value.workspace != swap.value.backup && (swap.value.hasBackup ==> swap.value.backup in host.dirs)
      requires saved.Some? ==>
                 && instanceInfo == None && HasRuntimeSpec(saved.value.config.runtimeSpec)
                 && (rt.Empty() || cleanupFailed)
      requires swap.Some? ==> swap.value.workspace == workspace && swap.value.backup == backup
      requires saved.Some? ==> WorkspaceOf(rt.cwd, rt.pid, saved.value.config) == workspace
      requires backup != workspace && backup != TmpDir(workspace)
      requires swap == None ==> Safe(host.dirs, workspace, backup, content)
      requires swap.Some? && content.Some? ==>
                 swap.value.hasBackup && swap.value.backup in host.dirs && host.dirs[backup] == content.value
      modifies Frame()
      ensures Valid() && rt.Others() == old(rt.Others())
      ensures old(cleanupFailed) ==> cleanupFailed
      ensures saved == None ==>
                instanceInfo == old(instanceInfo) && runtimeManager == old(runtimeManager) && unchanged(rt.Repr())
      ensures saved.Some? && !cleanupFailed ==> Runs(saved.value.kind, saved.value.config, saved.value.state)
      ensures !cleanupFailed ==>
                var back := if swap.Some? then RolledBack(old(host.dirs), swap.value) else old(host.dirs);
                if saved == None then host.dirs == back
                else WorkspaceTouched(back, host.dirs, WorkspaceOf(rt.cwd, rt.pid, saved.value.config))
      ensures AllSafe(old(host.history), host.history, workspace, backup, content)
      ensures Safe(host.dirs, workspace, backup, content)
    {
      hide WorkspaceTouched, WellRecorded, GoodPlace, ResolveWorkspace, RootFromPath, HasRuntimeSpec, RolledBack,
        Runtimes.Valid, Runtimes.Others, Safe, AllSafe, TouchedSince, TmpDir, WorkspaceOf, Intact, Runtimes.Held;
      RollBack(swap, workspace, backup, content);
      if saved == None {
        return;
      }
      ghost var mid, steps := host.dirs, host.history;
      runtimeManager := Some(saved.value.kind);
      var restored := RestoreRuntimeLaunch(saved.value.kind, saved.value.config, saved.value.state);
      cleanupFailed := cleanupFailed || !restored;
      SafeWhileTouched(mid, steps, host.history, workspace, backup, content);
      SafeChain(old(host.history), steps, host.history, workspace, backup, content);
      SafeTouched(mid, host.dirs, workspace, backup, content);
    }

    /** Undoes the swap, if there was one. */
    method RollBack(swap: Option<Swap>, ghost workspace: string, ghost backup: string, ghost content: Option<Tree>)
      requires swap.Some? ==>
                swap.value.workspace != swap.value.backup && (swap.value.hasBackup ==> swap.value.backup in host.dirs)
      requires swap.Some? ==> swap.value.workspace == workspace && swap.value.backup == backup
      requires swap == None ==> Safe(host.dirs, workspace, backup, content)
      requires swap.Some? && content.Some? ==>
                 swap.value.hasBackup && swap.value.backup in host.dirs && host.dirs[backup] == content.value
      modifies host, this`cleanupFailed
      ensures old(cleanupFailed) ==> cleanupFailed
      ensures !cleanupFailed ==>
                host.dirs == if swap.Some? then RolledBack(old(host.dirs), swap.value) else old(host.dirs)
      ensures AllSafe(old(host.history), host.history, workspace, backup, content)
      ensures Safe(host.dirs, workspace, backup, content)
    {
      hide RolledBack, Survives, Intact;
      if swap.None? {
        SafeNothing(host.history, workspace, backup, content);
        return;
      }
      var undone := Rollback(host, swap.value);
      cleanupFailed := cleanupFailed || !undone;
      SafeWhileIntact(host.dirs, old(host.history), host.history, swap.value, content);
    }

    lemma SavedFacts(saved: Saved, was: Standing)
      requires SavedFrom(saved, was)
      ensures was.info.Some? && HasRuntimeSpec(saved.config.runtimeSpec)
      ensures WorkspaceOf(rt.cwd, rt.pid, saved.config) == was.info.value.workspace
    {
      hide ResolveWorkspace, RootFromPath, HasRuntimeSpec;
    }

    lemma RunsIsKept(saved: Saved, was: Standing)
      requires SavedFrom(saved, was) && Runs(saved.kind, saved.config, saved.state)
      ensures Owned() && KeptIn(was, Now()) && IsWell(LiveIn(Now()))
      ensures LiveIn(Now()).value.agent == Up(Some(saved.state))
    {
      hide ResolveWorkspace, RootFromPath, HasRuntimeSpec, Runtimes.Valid, Runtimes.Others;
    }

    /** The swap, the launch of the restored runtime, and the commit.  `settled` is the step
        at which the commit starts; up to it, and to the end on an error, the old tree
        survives. */
    method SwapAndLaunch(plan: Plan, staged: string, backup: string, ghost dirs: Dirs, ghost tree: Tree)
      returns (err: Option<VmError>, swap: Option<Swap>, ghost settled: nat, ghost committed: bool)
      requires Valid() && instanceInfo == None && rt.Empty() && !cleanupFailed
      requires host.dirs == dirs[staged := tree] && FreshNames(dirs, plan.workspace, staged, backup)
      requires WorkspaceOf(rt.cwd, rt.pid, plan.config) == plan.workspace && HasRuntimeSpec(plan.config.runtimeSpec)
      modifies Frame()
      ensures Valid() && rt.Others() == old(rt.Others())
      ensures err == None && !cleanupFailed ==> Runs(plan.kind, plan.config, plan.checkpoint.runtimeState)
      ensures err == None ==> Restored(dirs, tree, host.dirs, plan.workspace, backup) && staged !in host.dirs
      ensures err == None ==>
                BackupGone(dirs, host.dirs, plan.workspace, backup, committed) && (committed || host.faulted)
      ensures err.Some? ==>
                instanceInfo == None && (rt.Empty() || cleanupFailed) && err.value in {SwapFailed, LaunchFailed}
      ensures err.Some? && swap == None && !cleanupFailed ==> host.dirs == dirs[staged := tree]
      ensures err.Some? && swap.Some? ==>
                && swap.value == SwapFor(dirs, plan.workspace, staged, backup)
                && FreshSwap(dirs[staged := tree], swap.value)
                && WorkspaceTouched(Promoted(dirs[staged := tree], swap.value), host.dirs, plan.workspace)
                && (swap.value.hasBackup ==> backup in host.dirs)
      ensures SafeUntil(old(host.history), host.history, settled, err.Some?, 1, plan.workspace, backup,
                        Look(dirs, plan.workspace))
      ensures err.Some? && swap == None ==> Safe(host.dirs, plan.workspace, backup, Look(dirs, plan.workspace))
      ensures err.Some? && swap.Some? ==> Look(host.dirs, backup) == Look(dirs, plan.workspace)
    {
      hide WorkspaceTouched, WellRecorded, GoodPlace, ResolveWorkspace, RootFromPath, HasRuntimeSpec, RolledBack,
        Promoted, Restored, Runtimes.Valid, Runtimes.Others, Runs, TmpDir, Safe, AllSafe, SafeUntil, Survives,
        Intact, IntactSince, Runtimes.Held, OwnedIn, BackupGone, FreshSwap, WorkspaceOf;
      ghost var before, content := host.history, Look(dirs, plan.workspace);
      FreshSwapFor(dirs, plan.workspace, staged, backup, tree);
      var promoted, undone := SwapIn(host, plan.workspace, staged, backup);
      SafeWhileIntact(host.dirs, before, host.history, Swap(plan.workspace, staged, backup, true), content);
      if promoted.Err? {
        SafeSoFar(before, host.history, 1, plan.workspace, backup, content);
        cleanupFailed := cleanupFailed || !undone;
        return Some(SwapFailed), None, |host.history|, false;
      }
      swap := Some(promoted.value);
      runtimeManager := Some(plan.kind);
      ghost var steps := host.history;
      err, settled, committed := LaunchAndCommit(plan, promoted.value, dirs, tree);
      SafeUntilFrom(before, steps, host.history, settled, err.Some?, 1, plan.workspace, backup, content);
    }

    /** What follows the swap: a commit, if the restored runtime can be launched. */
    method LaunchAndCommit(plan: Plan, swap: Swap, ghost dirs: Dirs, ghost tree: Tree)
      returns (err: Option<VmError>, ghost settled: nat, ghost committed: bool)
      requires Valid() && instanceInfo == None && rt.Empty() && !cleanupFailed && runtimeManager == Some(plan.kind)
      requires FreshNames(dirs, plan.workspace, swap.staged, swap.backup)
      requires swap == SwapFor(dirs, plan.workspace, swap.staged, swap.backup)
      requires FreshSwap(dirs[swap.staged := tree], swap) && host.dirs == Promoted(dirs[swap.staged := tree], swap)
      requires Safe(host.dirs, plan.workspace, swap.backup, Look(dirs, plan.workspace))
      requires WorkspaceOf(rt.cwd, rt.pid, plan.config) == plan.workspace && HasRuntimeSpec(plan.config.runtimeSpec)
      modifies Frame()
      ensures Valid() && rt.Others() == old(rt.Others())
      ensures err == None && !cleanupFailed ==> Runs(plan.kind, plan.config, plan.checkpoint.runtimeState)
      ensures err == None ==>
                && Restored(dirs, tree, host.dirs, plan.workspace, swap.backup) && swap.staged !in host.dirs
                && BackupGone(dirs, host.dirs, plan.workspace, swap.backup, committed) && (committed || host.faulted)
      ensures err.Some? ==>
                && err == Some(LaunchFailed) && instanceInfo == None && (rt.Empty() || cleanupFailed)
                && WorkspaceTouched(old(host.dirs), host.dirs, plan.workspace)
                && (swap.hasBackup ==> swap.backup in host.dirs)
                && Look(host.dirs, swap.backup) == Look(dirs, plan.workspace)
      ensures SafeUntil(old(host.history), host.history, settled, err.Some?, 1, plan.workspace, swap.backup,
                        Look(dirs, plan.workspace))
    {
      hide WorkspaceTouched, WellRecorded, GoodPlace, ResolveWorkspace, RootFromPath, HasRuntimeSpec, RolledBack,
        Promoted, Restored, Runtimes.Valid, Runtimes.Others, Runs, TmpDir, Safe, AllSafe, SafeUntil, TouchedSince,
        Runtimes.Held, OwnedIn, BackupGone, Committed, IsPart, FreshSwap, WorkspaceOf;
      ghost var before, mid, content := host.history, host.dirs, Look(dirs, plan.workspace);
      var launched := RestoreRuntimeLaunch(plan.kind, plan.config, plan.checkpoint.runtimeState);
      ghost var after, steps := host.dirs, host.history;
      SafeWhileTouched(mid, before, steps, plan.workspace, swap.backup, content);
      settled := |steps|;
      if !launched {
        SafeSoFar(before, steps, 1, plan.workspace, swap.backup, content);
        RollbackTouched(dirs, plan.workspace, swap.staged, swap.backup, tree, after);
        return Some(LaunchFailed), settled, false;
      }
      var removed := Commit(host, swap);
      committed := removed;
      SafeEnough(before, steps, host.history, 1, plan.workspace, swap.backup, content);
      CommitRestored(dirs, plan.workspace, swap.staged, swap.backup, tree, after, host.dirs, removed);
      err := None;
    }

    /** The part of a restore that the two outer clean-ups guard.  `dirs` is the host before
        the snapshot was unpacked to `tree`. */
    method RestoreStaged(plan: Plan, staged: string, backup: string, ghost dirs: Dirs, ghost tree: Tree)
      returns (err: Option<VmError>, ghost settled: nat, ghost committed: bool)
      requires Valid() && Owned() && !cleanupFailed
      requires host.dirs == dirs[staged := tree] && FreshNames(dirs, plan.workspace, staged, backup)
      requires WorkspaceOf(rt.cwd, rt.pid, plan.config) == plan.workspace && HasRuntimeSpec(plan.config.runtimeSpec)
      requires instanceInfo.Some? ==> plan.workspace == instanceInfo.value.workspace
      modifies Frame()
      ensures Valid() && rt.Others() == old(rt.Others())
      ensures err == None && !cleanupFailed ==> Runs(plan.kind, plan.config, plan.checkpoint.runtimeState)
      ensures err == None ==> Restored(dirs, tree, host.dirs, plan.workspace, backup) && staged !in host.dirs
      ensures err == None ==>
                BackupGone(dirs, host.dirs, plan.workspace, backup, committed) && (committed || host.faulted)
      ensures err.Some? && !cleanupFailed ==>
                && Owned() && AfterErrorIn(err.value, old(Now()), Now())
                && WorkspaceTouched(dirs, host.dirs - {staged}, plan.workspace)
                && (old(instanceInfo) == None ==>
                      Look(host.dirs - {staged}, plan.workspace) == Look(dirs, plan.workspace))
      ensures err.Some? ==> !err.value.StageFailed?
      ensures DownIn(old(Now())) ==> err == Some(AgentFailed) && Owned() && Now() == old(Now())
      ensures SafeUntil(old(host.history), host.history, settled, err.Some?, 1, plan.workspace, backup,
                        Look(dirs, plan.workspace))
      ensures err.Some? ==> Safe(host.dirs, plan.workspace, backup, Look(dirs, plan.workspace))
    {
      hide WorkspaceTouched, WellRecorded, GoodPlace, ResolveWorkspace, RootFromPath, HasRuntimeSpec, RolledBack,
        Promoted, Restored, Committed, Runtimes.Valid, Runtimes.Others, Runs, Describes, Safe, AllSafe, SafeUntil,
        Survives, TmpDir, NoWorse, SameConfig, Runtimes.Held;
      var saved;
      committed := false;
      ghost var content := Look(dirs, plan.workspace);
      SafeAtStart(dirs, host.dirs, plan.workspace, backup);
      err, saved := StopCurrent();
      if saved.Some? {
        SavedFacts(saved.value, old(Now()));
      }
      var swap: Option<Swap> := None;
      SafeNothing(host.history, plan.workspace, backup, content);
      if err == None {
        err, swap, settled, committed := SwapAndLaunch(plan, staged, backup, dirs, tree);
        if err == None {
          return;
        }
        AllOfIt(old(host.history), host.history, settled, 1, plan.workspace, backup, content);
      }
      ghost var before, steps := host.dirs, host.history;
      HandleRestoreFailure(swap, saved, plan.workspace, backup, content);
      SafeChain(old(host.history), steps, host.history, plan.workspace, backup, content);
      SafeSoFar(old(host.history), host.history, 1, plan.workspace, backup, content);
      settled := |host.history|;
      if !cleanupFailed {
        FailureDirs(dirs, plan.workspace, staged, backup, tree, swap, before, saved.Some?, host.dirs);
        if saved.Some? {
          RunsIsKept(saved.value, old(Now()));
        }
      }
    }

    /** The VM runs the checkpointed runtime in the unpacked workspace. */
    ghost predicate RestoreDone(plan: Plan, before: Dirs, backup: string, committed: bool)
      reads this, rt.Repr(), host
    {
      var snapshot := Unpacked(plan.checkpoint.workspaceArchive, plan.checkpoint.workspaceName);
      && snapshot.Ok? && Restored(before, snapshot.value, host.dirs, plan.workspace, backup)
      && BackupGone(before, host.dirs, plan.workspace, backup, committed) && (committed || host.faulted)
      && (!cleanupFailed ==> Runs(plan.kind, plan.config, plan.checkpoint.runtimeState))
    }

    /** The workspace tree is the old one, up to layout directories that the relaunch of an
        old runtime may add, and nothing else on the host has changed. */
    ghost predicate RestoreUndone(workspace: string, before: Dirs, hadInstance: bool)
      reads host
    {
      && WorkspaceTouched(before, host.dirs, workspace)
      && (!hadInstance ==> Look(host.dirs, workspace) == Look(before, workspace))
    }

    method RestorePlanned(plan: Plan, staged: string, backup: string)
      returns (err: Option<VmError>, ghost settled: nat, ghost committed: bool)
      requires Valid() && Owned() && !cleanupFailed
      requires FreshNames(host.dirs, plan.workspace, staged, backup) && IsAbs(plan.workspace)
      requires WorkspaceOf(rt.cwd, rt.pid, plan.config) == plan.workspace && HasRuntimeSpec(plan.config.runtimeSpec)
      requires instanceInfo.Some? ==> plan.workspace == instanceInfo.value.workspace
      modifies Frame()
      ensures Valid() && rt.Others() == old(rt.Others())
      ensures err == None ==> RestoreDone(plan, old(host.dirs), backup, committed) && staged !in host.dirs
      ensures err.Some? && !cleanupFailed ==>
                && Owned() && AfterErrorIn(err.value, old(Now()), Now())
                && RestoreUndone(plan.workspace, old(host.dirs), old(instanceInfo).Some?)
      ensures err.Some? && err.value.StageFailed? && !host.faulted ==>
                StageError(plan.checkpoint.workspaceArchive, plan.checkpoint.workspaceName,
                           Dir(staged) in old(host.parents)) == Some(err.value.stage)
      ensures DownIn(old(Now())) ==> err.Some? && Owned() && Now() == old(Now())
      ensures SafeUntil(old(host.history), host.history, settled, err.Some?, 2, plan.workspace, backup,
                        Look(old(host.dirs), plan.workspace))
    {
      hide WorkspaceTouched, WellRecorded, GoodPlace, ResolveWorkspace, RootFromPath, HasRuntimeSpec, Restored,
        Unpacked, Runtimes.Valid, Runtimes.Others, Runs, Describes, TmpDir, Runtimes.Only, Runtimes.Empty, Owned, Safe,
        AllSafe, SafeUntil, NoWorse, SameConfig, DownIn, HalvedIn, VmDocker.Valid, Runtimes.Held, Grown, RestoreUndone;
      KeptReflexive(Now());
      err := Stage(plan, staged, backup);
      if err.Some? {
        SafeSoFar(old(host.history), host.history, 2, plan.workspace, backup, Look(old(host.dirs), plan.workspace));
        return err, |host.history|, false;
      }
      ghost var tree := Unpacked(plan.checkpoint.workspaceArchive, plan.checkpoint.workspaceName).value;
      ghost var steps := host.history;
      err, settled, committed := RestoreAndClean(plan, staged, backup, old(host.dirs), tree);
      SafeUntilFrom(old(host.history), steps, host.history, settled, err.Some?, 2, plan.workspace, backup,
                    Look(old(host.dirs), plan.workspace));
    }

    /** Unpacks the snapshot into the staging directory. */
    method Stage(plan: Plan, staged: string, backup: string) returns (err: Option<VmError>)
      requires FreshNames(host.dirs, plan.workspace, staged, backup) && IsAbs(plan.workspace) && !cleanupFailed
      modifies host, this`cleanupFailed
      ensures err == None ==>
                var snapshot := Unpacked(plan.checkpoint.workspaceArchive, plan.checkpoint.workspaceName);
                snapshot.Ok? && host.dirs == old(host.dirs)[staged := snapshot.value] && !cleanupFailed
      ensures err.Some? ==> err.value.StageFailed?
      ensures err.Some? && !host.faulted ==>
                StageError(plan.checkpoint.workspaceArchive, plan.checkpoint.workspaceName,
                           Dir(staged) in old(host.parents)) == Some(err.value.stage)
      ensures err.Some? && !cleanupFailed ==> RestoreUndone(plan.workspace, old(host.dirs), instanceInfo.Some?)
      ensures AllSafe(old(host.history), host.history, plan.workspace, backup, Look(old(host.dirs), plan.workspace))
    {
      hide WorkspaceTouched, TmpDir, NormalizeName, Safe, AllSafe, OnlyAtSince, OnlyAt, Unpacked, StageError;
      Untouched(host.dirs, plan.workspace);
      SafeAtStart(host.dirs, host.dirs, plan.workspace, backup);
      var filled, cleaned := StageNormalized(host, plan.workspace, staged, NormalizeName(plan.checkpoint.workspaceName),
                                             plan.checkpoint.workspaceArchive);
      NormalizedName(plan.checkpoint.workspaceArchive, plan.checkpoint.workspaceName);
      SameStageError(plan.checkpoint.workspaceArchive, plan.checkpoint.workspaceName, Dir(staged) in old(host.parents));
      SafeWhileElsewhere(old(host.dirs), old(host.history), host.history, staged, plan.workspace, backup,
                         Look(old(host.dirs), plan.workspace));
      if filled.Err? {
        cleanupFailed := !cleaned;
        return Some(StageFailed(filled.error));
      }
      err := None;
    }

    /** The deferred removal of the staging directory runs last. */
    method RestoreAndClean(plan: Plan, staged: string, backup: string, ghost dirs: Dirs, ghost tree: Tree)
      returns (err: Option<VmError>, ghost settled: nat, ghost committed: bool)
      requires Valid() && Owned() && !cleanupFailed
      requires host.dirs == dirs[staged := tree] && FreshNames(dirs, plan.workspace, staged, backup)
      requires WorkspaceOf(rt.cwd, rt.pid, plan.config) == plan.workspace && HasRuntimeSpec(plan.config.runtimeSpec)
      requires instanceInfo.Some? ==> plan.workspace == instanceInfo.value.workspace
      modifies Frame()
      ensures Valid() && rt.Others() == old(rt.Others())
      ensures err == None ==>
                && Restored(dirs, tree, host.dirs, plan.workspace, backup) && staged !in host.dirs
                && BackupGone(dirs, host.dirs, plan.workspace, backup, committed) && (committed || host.faulted)
                && (!cleanupFailed ==> Runs(plan.kind, plan.config, plan.checkpoint.runtimeState))
      ensures err.Some? && !cleanupFailed ==>
                && Owned() && AfterErrorIn(err.value, old(Now()), Now())
                && RestoreUndone(plan.workspace, dirs, old(instanceInfo).Some?)
      ensures err.Some? ==> !err.value.StageFailed?
      ensures DownIn(old(Now())) ==> err.Some? && Owned() && Now() == old(Now())
      ensures SafeUntil(old(host.history), host.history, settled, err.Some?, 2, plan.workspace, backup,
                        Look(dirs, plan.workspace))
    {
      hide WorkspaceTouched, WellRecorded, GoodPlace, ResolveWorkspace, RootFromPath, HasRuntimeSpec, Restored,
        Runtimes.Valid, Runtimes.Others, Runs, Describes, TmpDir, Runtimes.Only, Runtimes.Empty, WorkspaceOf, Safe,
        AllSafe, SafeUntil, Survives, KeptIn, HalvedIn, DownIn, OnlyAt, OwnedIn, VmDocker.Valid, Runtimes.Held,
        AfterErrorIn, BackupGone;
      err, settled, committed := RestoreStaged(plan, staged, backup, dirs, tree);
      ghost var done, steps := host.dirs, host.history;
      assert err == None ==> done - {staged} == done;
      var removed := host.RemoveAll(staged);
      cleanupFailed := cleanupFailed || !removed;
      OnlyAtRemoval(done, host.dirs, staged);
      SafeAfterClean(old(host.history), steps, settled, err.Some?, done, host.dirs, staged, plan.workspace, backup,
                     Look(dirs, plan.workspace));
      settled := if err.Some? then |host.history| else settled;
    }

    /** Restores the VM from a checkpoint, or leaves it as it was, for every pattern of
        failing calls in which the clean-ups succeed, except the one that stops a sandbox
        and then fails to remove it.  `staged` and `backup` are the temporary names the
        operating system and the clock give.  For every pattern whatsoever, the old tree
        survives each step up to `settled`, when the restored runtime is up and only the
        two final removals may be left. */
    method Restore(cp: Option<Checkpoint>, staged: string, backup: string)
      returns (err: Option<VmError>, ghost settled: nat, ghost committed: bool)
      requires Valid() && Owned()
      requires Refusal(cp) == None ==> FreshNames(host.dirs, RestoredPlace(instanceInfo), staged, backup)
      modifies Frame()
      ensures Valid() && rt.Others() == old(rt.Others())
      ensures Refusal(cp).Some? ==> err == Refusal(cp) && host.dirs == old(host.dirs) && !cleanupFailed
      ensures err == None ==>
                && cp.Some? && cp.value.format == "vmdocker.workspace.v1" && processTags.spec.Ok?
                && var unpacked := Unpacked(cp.value.workspaceArchive, cp.value.workspaceName);
                   var workspace := RestoredPlace(old(instanceInfo));
                   && unpacked.Ok? && Restored(old(host.dirs), unpacked.value, host.dirs, workspace, backup)
                   && BackupGone(old(host.dirs), host.dirs, workspace, backup, committed)
                   && (committed || host.faulted) && staged !in host.dirs
      ensures err == None && !cleanupFailed ==>
                && WellIn(Now())
                && instanceInfo.Some? && instanceInfo.value.workspace == RestoredPlace(old(instanceInfo))
                && LaunchedFrom(cp.value, processTags.spec.value, processTags.env,
                                instanceInfo.value.runtimeSpec, instanceInfo.value.runtimeEnv)
                && instanceInfo.value.backend == instanceInfo.value.runtimeSpec.backend
                && LiveIn(Now()).Some? && LiveIn(Now()).value.agent == Up(Some(cp.value.runtimeState))
      ensures err.Some? && !cleanupFailed ==>
                && Owned() && AfterErrorIn(err.value, old(Now()), Now())
                && RestoreUndone(RestoredPlace(old(instanceInfo)), old(host.dirs), old(instanceInfo).Some?)
      ensures err.Some? && err.value.StageFailed? && !host.faulted ==>
                && cp.Some?
                && StageError(cp.value.workspaceArchive, cp.value.workspaceName, Dir(staged) in old(host.parents))
                == Some(err.value.stage)
      ensures err.Some? && !cleanupFailed && old(runtimeManager) != Some(SandboxKind) ==> KeptIn(old(Now()), Now())
      ensures err.Some? && !cleanupFailed && WellIn(old(Now())) ==>
                && (KeptIn(old(Now()), Now()) <==> err != Some(HalfRemoved))
                && (err != Some(HalfRemoved) ==> WellIn(Now()))
      ensures DownIn(old(Now())) ==> err.Some? && Owned() && Now() == old(Now())
      ensures cleanupFailed || Owned()
      ensures Refusal(cp) == None ==>
                var workspace := RestoredPlace(old(instanceInfo));
                SafeUntil(old(host.history), host.history, settled, err.Some?, 2, workspace, backup,
                          Look(old(host.dirs), workspace))
    {
      hide WorkspaceTouched, WellRecorded, GoodPlace, ResolveWorkspace, RootFromPath, HasRuntimeSpec, Restored,
        Unpacked, Runtimes.Valid, Runtimes.Others, Describes, MakePlan, TmpDir, SafeUntil, NoWorse, SameConfig,
        Runtimes.Held, LaunchedFrom, Refusal, RestoredPlace, BackupGone;
      var plan := MakePlan(cp);
      cleanupFailed := false;
      host.faulted := false;
      PlanMeans(cp);
      NothingDone(RestoredPlace(instanceInfo), backup);
      KeptReflexive(Now());
      if plan.Err? {
        PlanError(cp);
        if WellIn(Now()) { AfterErrorExact(plan.error, Now(), Now()); }
        return Some(plan.error), |host.history|, false;
      }
      PlanFacts(cp);
      var imageReady: bool := *;
      if !imageReady {
        err, settled, committed := Some(ImageFailed), |host.history|, false;
      } else {
        err, settled, committed := RestorePlanned(plan.value, staged, backup);
        if err == None && !cleanupFailed {
          RunsLaunched(plan.value, cp.value, processTags.spec.value, processTags.env);
        }
      }
      if err.Some? && !cleanupFailed && WellIn(old(Now())) {
        AfterErrorExact(err.value, old(Now()), Now());
      }
    }

    lemma RunsLaunched(plan: Plan, cp: Checkpoint, tagSpec: RuntimeSpec, tagEnv: seq<string>)
      requires Runs(plan.kind, plan.config, cp.runtimeState)
      requires WorkspaceOf(rt.cwd, rt.pid, plan.config) == plan.workspace
      requires LaunchedFrom(cp, tagSpec, tagEnv, plan.config.runtimeSpec, plan.config.runtimeEnv)
      requires plan.config.runtimeSpec.backend == BackendName(plan.kind)
      ensures instanceInfo.Some? && instanceInfo.value.workspace == plan.workspace
      ensures instanceInfo.value.backend == instanceInfo.value.runtimeSpec.backend
      ensures LiveIn(Now()).Some? && LiveIn(Now()).value.agent == Up(Some(cp.runtimeState))
      ensures LaunchedFrom(cp, tagSpec, tagEnv, instanceInfo.value.runtimeSpec, instanceInfo.value.runtimeEnv)
    {
      hide SaysSomething, ResolveWorkspace, RootFromPath, Runtimes.Valid;
    }

    lemma NothingDone(workspace: string, backup: string)
      ensures RestoreUndone(workspace, host.dirs, instanceInfo.Some?)
      ensures SafeUntil(host.history, host.history, |host.history|, true, 2, workspace, backup,
                        Look(host.dirs, workspace))
    {
      Untouched(host.dirs, workspace);
      SafeNothing(host.history, workspace, backup, Look(host.dirs, workspace));
      SafeSoFar(host.history, host.history, 2, workspace, backup, Look(host.dirs, workspace));
    }

    lemma PlanError(cp: Option<Checkpoint>)
      requires MakePlan(cp).Err?
      ensures MakePlan(cp).error in {BadSnapshot, BadFormat, NoManager} || MakePlan(cp).error.ConfigFailed?
    {
    }

    // ----- checkpointing and spawning -----

    /** Removes the instance, archives its workspace, and launches it again.  On an error the
        VM is as it was, unless a sandbox was stopped and then could not be removed, or the
        instance could not be launched again. */
    method TakeCheckpoint() returns (r: Result<Checkpoint, VmError>, ghost walk: WalkEnd)
      requires Valid() && Owned()
      modifies Frame()
      ensures Valid() && rt.Others() == old(rt.Others())
      ensures cleanupFailed || Owned()
      ensures old(instanceInfo) == None ==> r == Err(NoInstance) && instanceInfo == None && host.dirs == old(host.dirs)
      ensures old(instanceInfo).Some? ==> WorkspaceTouched(old(host.dirs), host.dirs, old(instanceInfo).value.workspace)
      ensures r.Ok? ==>
                var info := old(instanceInfo).value;
                && old(instanceInfo).Some?
                && r.value.format == "vmdocker.workspace.v1" && r.value.workspaceName == "workspace"
                && r.value.backend == info.runtimeSpec.backend && r.value.runtimeSpec == info.runtimeSpec
                && r.value.runtimeEnv == info.runtimeEnv
                && SnapshotOf(r.value.workspaceArchive, At(old(host.dirs), info.workspace), walk.Finished?)
      ensures !cleanupFailed ==> CheckpointLeaves(r, old(Now()), Now())
      ensures r.Err? && LosesInstance(r.error) ==> instanceInfo == None
      ensures r.Err? && !LosesInstance(r.error) && !cleanupFailed && old(runtimeManager) != Some(SandboxKind) ==>
                KeptIn(old(Now()), Now())
      ensures r.Err? && r.error.ArchiveFailed? ==>
                LeavesGap(walk, At(old(host.dirs), old(instanceInfo).value.workspace))
      ensures !cleanupFailed && WellIn(old(Now())) ==>
                && (KeptIn(old(Now()), Now()) <==>
                    r.Ok? || (r.error != HalfRemoved && !LosesInstance(r.error)))
                && (r.Ok? || r.error != HalfRemoved ==> WellIn(Now()))
      ensures DownIn(old(Now())) ==>
                r == Err(AgentFailed) && Owned() && Now() == old(Now()) && host.dirs == old(host.dirs)
    {
      hide WorkspaceTouched, WellRecorded, GoodPlace, ResolveWorkspace, RootFromPath, HasRuntimeSpec, Runtimes.Valid,
        Runtimes.Others, Describes, TmpDir, SnapshotOf, Runs, IsBlank, LeavesGap, VmDocker.Valid, Runtimes.Held,
        Runtimes.Only, OwnedIn, KeptIn, WellIn, LiveIn, DownIn, AfterErrorIn, CheckpointLeaves, SameOutside, At;
      cleanupFailed := false;
      if instanceInfo == None {
        NothingLost(NoInstance, Now());
        CheckpointExact(Err(NoInstance), Now(), Now());
        return Err(NoInstance), BeforeHeader;
      }
      Untouched(host.dirs, instanceInfo.value.workspace);
      var workspace := instanceInfo.value.workspace;
      var err, saved := StopCurrent();
      if err.Some? {
        ErrorLeft(err.value, old(Now()), Now());
        CheckpointExact(Err(err.value), old(Now()), Now());
        return Err(err.value), BeforeHeader;
      }
      r, walk := ArchiveAndRelaunch(saved.value, old(Now()), workspace);
      if !cleanupFailed {
        CheckpointExact(r, old(Now()), Now());
      }
    }

    /** `checkpointWorkspaceArchive`, once the instance is gone: it is launched again whether
        or not the archive could be made. */
    method ArchiveAndRelaunch(saved: Saved, ghost was: Standing, workspace: string)
      returns (r: Result<Checkpoint, VmError>, ghost walk: WalkEnd)
      requires Valid() && instanceInfo == None && rt.Empty() && runtimeManager == Some(saved.kind) && !cleanupFailed
      requires SavedFrom(saved, was) && workspace == was.info.value.workspace
      modifies Frame()
      ensures Valid() && rt.Others() == old(rt.Others())
      ensures cleanupFailed || Owned()
      ensures WorkspaceTouched(old(host.dirs), host.dirs, workspace)
      ensures r.Ok? ==>
                && r.value == CheckpointOf(saved.config, r.value.workspaceArchive, saved.state)
                && SnapshotOf(r.value.workspaceArchive, At(old(host.dirs), workspace), walk.Finished?)
      ensures r.Err? ==> r.error == LaunchFailed || r.error.ArchiveFailed?
      ensures r.Err? && r.error.ArchiveFailed? <==> LeavesGap(walk, At(old(host.dirs), workspace))
      ensures r.Err? && LosesInstance(r.error) ==> instanceInfo == None
      ensures (r.Ok? || !LosesInstance(r.error)) && !cleanupFailed ==>
                && KeptIn(was, Now()) && IsWell(LiveIn(Now())) && LiveIn(Now()).value.agent == Up(Some(saved.state))
      ensures !cleanupFailed ==> CheckpointLeaves(r, was, Now())
    {
      hide WorkspaceTouched, WellRecorded, GoodPlace, ResolveWorkspace, RootFromPath, HasRuntimeSpec,
        Runtimes.Valid, Runtimes.Others, TmpDir, SnapshotOf, Runs, IsBlank, KeptIn, LeavesGap, SavedFrom, Runtimes.Held;
      SavedFacts(saved, was);
      SavedWorkspace(saved, was);
      var archive;
      archive, walk := CheckpointWorkspace(host, workspace, "");
      NoGapInNothing(walk);
      if archive.Ok? {
        ArchiveIsSnapshot(host.dirs, workspace, archive.value, walk.Finished?);
      }
      var launched := RestoreRuntimeLaunch(saved.kind, saved.config, saved.state);
      if launched && !cleanupFailed {
        RunsIsKept(saved, was);
      }
      if archive.Err? {
        return Err(ArchiveFailed(launched)), walk;
      }
      if !launched {
        return Err(LaunchFailed), walk;
      }
      r := Ok(CheckpointOf(saved.config, archive.value, saved.state));
    }

    /** The manager that the tags name. */
    function TagsManager(tags: Tags): Option<Kind> {
      if tags.spec.Err? then None else rt.GetManager(tags.spec.value.backend)
    }

    /** Run cannot end in two instances: there is none yet, or the tags name no manager, or
        they name the one that holds the VM and it refuses a second instance. */
    predicate RunIsSafe(tags: Tags)
      reads `instanceInfo, `runtimeManager, rt, rt.docker, rt.sandbox
    {
      || instanceInfo == None || TagsManager(tags) == None
      || (TagsManager(tags) == runtimeManager && rt.Refuses(TagsManager(tags).value, tags.spec.value))
    }

    /** `Run`: spawns the runtime its tags describe and seeds its workspace; an instance
        that cannot be brought up is removed.  It does not look for an instance the VM may
        have already: with one, ownership is kept if and only if `RunIsSafe` says so, or
        the tags name the VM's own manager and that fails to create another. */
    method Run(tags: Tags, seed: Seeding) returns (err: Option<VmError>, ghost created: bool, ghost base: Tree)
      requires Valid() && Owned() && Specific(tags)
      modifies Frame()
      ensures Valid() && rt.Others() == old(rt.Others())
      ensures old(instanceInfo) == None ==>
                && (cleanupFailed || Owned()) && (err.Some? ==> instanceInfo == None)
                && (err == None ==>
                      && !cleanupFailed && runtimeManager == TagsManager(tags) && runtimeManager.Some?
                      && exists state :: Runs(runtimeManager.value, Config(tags.spec.value, tags.env), state))
      ensures old(instanceInfo).Some? ==>
                (Owned() <==> old(RunIsSafe(tags)) || (TagsManager(tags) == old(runtimeManager) && !created))
      ensures old(instanceInfo).Some? && Owned() ==>
                err.Some? && !cleanupFailed && !created && Now() == old(Now())
      ensures err == None && Owned() ==> IsWell(LiveIn(Now()))
      ensures err == None ==>
                && TagsManager(tags).Some?
                && rt.Held() == old(rt.Held()).Put(TagsManager(tags).value, rt.Held().Get(TagsManager(tags).value))
      ensures err == None ==> rt.Held().Get(TagsManager(tags).value).Some?
      ensures tags.spec.Err? ==> host.dirs == old(host.dirs)
      ensures tags.spec.Ok? ==>
                var workspace := ResolveWorkspace(rt.cwd, rt.pid, tags.spec.value.sandbox.workspace);
                && SameOutside(old(host.dirs), host.dirs, {workspace, TmpDir(workspace)})
                && (!created ==> WorkspaceTouched(old(host.dirs), host.dirs, workspace))
                && (err == None ==> SeededAt(old(host.dirs), host.dirs, workspace, seed, base))
    {
      hide WorkspaceTouched, WellRecorded, GoodPlace, ResolveWorkspace, RootFromPath, HasRuntimeSpec, Runtimes.Valid,
        Runtimes.Others, Runtimes.Held, SameOutside, TmpDir;
      cleanupFailed := false;
      base := EMPTY_DIR;
      if tags.spec.Err? {
        return Some(ConfigFailed(tags.spec.error)), false, base;
      }
      ghost var workspace := ResolveWorkspace(rt.cwd, rt.pid, tags.spec.value.sandbox.workspace);
      Untouched(host.dirs, workspace);
      TouchedOutside(host.dirs, host.dirs, workspace);
      var k := rt.GetManager(tags.spec.value.backend);
      if k.None? {
        return Some(NoManager), false, base;
      }
      runtimeManager := k;
      var imageReady: bool := *;
      if !imageReady {
        return Some(ImageFailed), false, base;
      }
      err, created, base := Spawn(k.value, Config(tags.spec.value, tags.env), seed);
    }

    /** `base` is the workspace that is seeded: what was there, with its layout directories. */
    method Spawn(k: Kind, config: Config, seed: Seeding)
      returns (err: Option<VmError>, ghost created: bool, ghost base: Tree)
      requires Valid() && runtimeManager == Some(k) && !cleanupFailed && HasRuntimeSpec(config.runtimeSpec)
      modifies Frame()
      ensures Valid() && rt.Others() == old(rt.Others()) && runtimeManager == Some(k)
      ensures old(rt.Refuses(k, config.runtimeSpec)) ==> !created
      ensures !created ==>
                && err.Some? && instanceInfo == old(instanceInfo) && rt.Held() == old(rt.Held()) && !cleanupFailed
                && (rt.sandbox.Valid() <==> old(rt.sandbox.Valid()))
      ensures created ==>
                && rt.Held() == old(rt.Held()).Put(k, rt.Held().Get(k))
                && (rt.sandbox.Valid() <==> old(rt.sandbox.Valid()) && old(rt.Held()).Get(k) == None)
                && (if err == None then instanceInfo.Some? && rt.Held().Get(k).Some? && !cleanupFailed
                    else instanceInfo == None && (rt.Held().Get(k).None? || cleanupFailed))
      ensures err == None && old(rt.Empty()) ==> exists state :: Runs(k, config, state)
      ensures var workspace := WorkspaceOf(rt.cwd, rt.pid, config);
              && SameOutside(old(host.dirs), host.dirs, {workspace, TmpDir(workspace)})
              && (!created ==> WorkspaceTouched(old(host.dirs), host.dirs, workspace))
              && (err == None ==> SeededAt(old(host.dirs), host.dirs, workspace, seed, base))
    {
      hide WorkspaceTouched, WellRecorded, GoodPlace, ResolveWorkspace, RootFromPath, HasRuntimeSpec, Runtimes.Valid,
        Runtimes.Others, Runtimes.Refuses, Runtimes.Held, SameOutside, SeededAt, TmpDir;
      var workspace := WorkspaceOf(rt.cwd, rt.pid, config);
      var instance := rt.Create(host, k, config.runtimeSpec, config.runtimeEnv);
      TouchedOutside(old(host.dirs), host.dirs, workspace);
      base := EMPTY_DIR;
      if instance.Err? {
        return Some(LaunchFailed), false, base;
      }
      created, base := true, host.dirs[workspace];
      ghost var made := host.dirs;
      FreshlyRecorded(instance.value, rt.cwd, rt.pid, BackendName(k), config);
      instanceInfo := Some(instance.value);
      var state: string := *;
      var seeded := SeedWorkspace(workspace, seed);
      ghost var filled := host.dirs;
      var ok := seeded;
      if ok {
        ok := BringUp(k, workspace, state);
        SeededThen(old(host.dirs), made, filled, host.dirs, workspace, seed);
      }
      PutOutside(old(host.dirs), made, filled, workspace);
      if !ok {
        RemoveFailedInstance(k);
        return Some(if seeded then LaunchFailed else SeedFailed), true, base;
      }
      assert old(rt.Empty()) ==> Runs(k, config, state);
      err := None;
    }

    /** `seedWorkspaceFromModule`; a seeding that fails may have written anything into the
        workspace. */
    method SeedWorkspace(workspace: string, seed: Seeding) returns (ok: bool)
      requires workspace in host.dirs
      modifies host
      ensures OnlyAt(old(host.dirs), host.dirs, workspace)
      ensures ok ==>
                var seeded := seed(old(host.dirs)[workspace]);
                seeded.Some? && host.dirs == old(host.dirs)[workspace := seeded.value]
    {
      var seeded := seed(host.dirs[workspace]);
      var fails: bool, partial: Tree := *, *;
      ok := seeded.Some? && !fails;
      var written := host.Put(workspace, if ok then seeded.value else partial);
      ok := ok && written;
    }

    // ----- runs -----

    /** Every sequence of calls, with any failing steps, up to the first one in which a
        clean-up fails or that runs the VM a second time, with whatever tags, though that is
        not safe.  Before that the VM owns its instance, and it is well unless a sandbox was
        stopped and could not be removed; from then on every checkpoint and restore fails and
        changes nothing. */
    method RunCalls(calls: seq<Call>) returns (made: nat, unsafeRun: bool, halved: bool)
      requires Valid() && Owned() && WellIn(Now()) && !cleanupFailed
      requires forall call | call in calls && call.SpawnCall? :: Specific(call.tags)
      modifies Frame()
      ensures Valid() && rt.Others() == old(rt.Others())
      ensures made <= |calls| && (made == |calls| || cleanupFailed || unsafeRun)
      ensures unsafeRun ==> 0 < made && calls[made - 1].SpawnCall?
      ensures !cleanupFailed && !unsafeRun ==> Owned()
      ensures !cleanupFailed && !unsafeRun && !halved ==> WellIn(Now())
      ensures !cleanupFailed && !unsafeRun && halved ==>
                DownIn(Now()) && runtimeManager == Some(SandboxKind)
    {
      hide Owned, Runtimes.Others, Runtimes.Valid, FreshNames, GoodPlace, WorkspaceTouched, Runtimes.Held, Refusal,
        RestoredPlace, LaunchedFrom, Restored, Unpacked, BackupGone, RestoreUndone, StageError, SameOutside, SeededAt,
        SnapshotOf, LeavesGap, SafeUntil, KeptIn, RunIsSafe;
      made, unsafeRun, halved := 0, false, false;
      while made < |calls| && !cleanupFailed && !unsafeRun
        invariant made <= |calls| && Valid() && rt.Others() == old(rt.Others())
        invariant unsafeRun ==> 0 < made && calls[made - 1].SpawnCall?
        invariant cleanupFailed || unsafeRun || Owned()
        invariant cleanupFailed || unsafeRun || halved || WellIn(Now())
        invariant cleanupFailed || unsafeRun || !halved ||
                  (DownIn(Now()) && runtimeManager == Some(SandboxKind))
      {
        match calls[made] {
          case SpawnCall(tags, seed) =>
            assert calls[made] in calls;
            unsafeRun := !RunIsSafe(tags);
            var spawned, created, base := Run(tags, seed);
          case CheckpointCall =>
            var checkpoint, walk := TakeCheckpoint();
            halved := halved || checkpoint == Err(HalfRemoved);
          case RestoreCall(cp, staged, backup) =>
            if Refusal(cp).Some? || FreshNames(host.dirs, RestoredPlace(instanceInfo), staged, backup) {
              var restored, settled, committed := Restore(cp, staged, backup);
              halved := halved || restored == Some(HalfRemoved);
            }
        }
        made := made + 1;
      }
    }

    /** A VM has been restored from a sandbox checkpoint.  Running it with tags that name
        Docker loses ownership in every case; when it succeeds, both managers hold it. */
    method SecondRunExample(tags: Tags, seed: Seeding) returns (err: Option<VmError>)
      requires Valid() && Owned() && instanceInfo.Some? && runtimeManager == Some(SandboxKind)
      requires Specific(tags) && tags.spec.Ok? && tags.spec.value.backend == DOCKER && rt.dockerWorks
      modifies Frame()
      ensures Valid() && !Owned()
      ensures err == None ==> rt.Held().docker.Some? && rt.Held().sandbox.Some?
    {
      hide Runtimes.Others, Runtimes.Valid, Runtimes.Held, Describes;
      ghost var created, base;
      err, created, base := Run(tags, seed);
    }

    /** Once a sandbox has been stopped without being removed, every further checkpoint and
        restore fails and leaves the VM's instance as it is. */
    method CallsWhileDown(calls: seq<Call>)
      requires Valid() && Owned() && DownIn(Now()) && forall call | call in calls :: !call.SpawnCall?
      modifies Frame()
      ensures Valid() && Owned() && Now() == old(Now())
    {
      hide Owned, Runtimes.Others, Runtimes.Valid, FreshNames, GoodPlace, WorkspaceTouched, Runtimes.Held, Refusal,
        RestoredPlace, LaunchedFrom, Restored, Unpacked, BackupGone, RestoreUndone, StageError, SameOutside, SeededAt,
        SnapshotOf, LeavesGap, SafeUntil, KeptIn, AfterErrorIn, CheckpointLeaves;
      for i := 0 to |calls|
        invariant Valid() && Owned() && Now() == old(Now())
      {
        assert calls[i] in calls;
        match calls[i] {
          case CheckpointCall =>
            var checkpoint, walk := TakeCheckpoint();
            assert checkpoint.Err?;
          case RestoreCall(cp, staged, backup) =>
            if Refusal(cp).Some? || FreshNames(host.dirs, RestoredPlace(instanceInfo), staged, backup) {
              var restored, settled, committed := Restore(cp, staged, backup);
              assert restored.Some?;
            }
        }
      }
    }

    // ----- rounds -----

    /** Spawned with an explicit backend and a non-empty environment: what restoring a VM's
        own checkpoint needs (`LaunchConfig.OwnCheckpointResolves`). */
    predicate OwnRestorable(info: InstanceInfo) { info.runtimeSpec.backend == info.backend && info.runtimeEnv != [] }

    /** What a VM's own checkpoint launches has the configuration it was taken from. */
    lemma RestoredIsSame(cp: Checkpoint, info: InstanceInfo, k: Kind, now: InstanceInfo, nowKind: Kind)
      requires cp == CheckpointOf(Config(info.runtimeSpec, info.runtimeEnv), cp.workspaceArchive, cp.runtimeState)
      requires processTags.spec.Ok? && now.workspace == info.workspace && now.backend == now.runtimeSpec.backend
      requires LaunchedFrom(cp, processTags.spec.value, processTags.env, now.runtimeSpec, now.runtimeEnv)
      requires OwnRestorable(info) && WellRecorded(info, rt.cwd, rt.pid) && WellRecorded(now, rt.cwd, rt.pid)
      requires info.backend == BackendName(k) && now.backend == BackendName(nowKind)
      ensures SameConfig(info, now) && nowKind == k
    {
      hide ResolveWorkspace, RootFromPath, HasRuntimeSpec, SaysSomething;
      SpecExact(info.runtimeSpec);
      assert now.runtimeSpec.sandbox == info.runtimeSpec.sandbox;
      assert now.runtimeSpec == info.runtimeSpec;
    }

    lemma RoundTree(snapshot: Snapshot, tree: Tree, name: string)
      requires SnapshotOf(snapshot, tree, true) && WellFormed(tree) && (TrimSpace(name) == "" || name == "workspace")
      requires Unpacked(snapshot, name).Ok?
      ensures Unpacked(snapshot, name).value == WithLayout(tree, LAYOUT) && Grown(tree, Unpacked(snapshot, name).value)
    {
      hide Unpacked, WithLayout, Grown, LayoutBlocked, Archives;
      VisibleKept("workspace");
      CheckpointStageRoundTrip(tree, "", snapshot, name);
    }

    /** Restores the VM's own checkpoint. */
    method RestoreOwn(cp: Checkpoint, staged: string, backup: string) returns (ok: bool)
      requires Valid() && Owned() && instanceInfo.Some? && OwnRestorable(instanceInfo.value)
      requires cp == CheckpointOf(Config(instanceInfo.value.runtimeSpec, instanceInfo.value.runtimeEnv),
                                  cp.workspaceArchive, cp.runtimeState)
      modifies Frame()
      ensures Valid() && rt.Others() == old(rt.Others())
      ensures ok ==>
                && !cleanupFailed && Owned() && instanceInfo.Some?
                && SameConfig(old(instanceInfo).value, instanceInfo.value)
                && runtimeManager == old(runtimeManager) && IsWell(LiveIn(Now()))
                && LiveIn(Now()).value.agent == Up(Some(cp.runtimeState))
      ensures ok ==>
                var unpacked := Unpacked(cp.workspaceArchive, cp.workspaceName);
                && unpacked.Ok? && Grown(unpacked.value, At(host.dirs, old(instanceInfo).value.workspace))
    {
      hide WorkspaceTouched, WellRecorded, GoodPlace, ResolveWorkspace, RootFromPath, HasRuntimeSpec, Unpacked,
        Runtimes.Valid, Runtimes.Others, MakePlan, TmpDir, SafeUntil, Runtimes.Held, Grown, FreshNames, Runs,
        CheckpointOf, OwnRestorable, SameOutside, KeptIn, AfterErrorIn, DownIn;
      var info := instanceInfo.value;
      if Refusal(Some(cp)).Some? || !FreshNames(host.dirs, RestoredPlace(instanceInfo), staged, backup) {
        return false;
      }
      OwnedFacts(Now());
      var k := runtimeManager.value;
      var err;
      ghost var settled, committed;
      err, settled, committed := Restore(Some(cp), staged, backup);
      if err.Some? || cleanupFailed {
        return false;
      }
      RestoredIsSame(cp, info, k, instanceInfo.value, runtimeManager.value);
      ok := true;
    }

    /** Takes a checkpoint and restores it.  `intact`: the walk was complete. */
    method Round(staged: string, backup: string) returns (ok: bool, ghost intact: bool)
      requires Valid() && Owned() && WellIn(Now()) && instanceInfo.Some? && OwnRestorable(instanceInfo.value)
      modifies Frame()
      ensures Valid() && rt.Others() == old(rt.Others())
      ensures ok ==> !cleanupFailed && SameRuntime(old(Now()))
      ensures ok && intact ==>
                var workspace := old(instanceInfo).value.workspace;
                Grown(At(old(host.dirs), workspace), At(host.dirs, workspace))
    {
      hide WorkspaceTouched, WellRecorded, GoodPlace, ResolveWorkspace, RootFromPath, HasRuntimeSpec, Unpacked,
        Runtimes.Valid, Runtimes.Others, Describes, SnapshotOf, Runtimes.Held, Grown, WellFormed, OwnRestorable, KeptIn,
        AfterErrorIn, DownIn, NoWorse;
      ghost var tree, workspace := At(host.dirs, instanceInfo.value.workspace), instanceInfo.value.workspace;
      var checkpoint;
      ghost var walk;
      checkpoint, walk := TakeCheckpoint();
      intact := walk.Finished? && WellFormed(tree);
      if checkpoint.Err? || cleanupFailed {
        return false, intact;
      }
      var cp := checkpoint.value;
      RoundSaved(old(Now()), Now(), cp.runtimeState);
      ok := RestoreOwn(cp, staged, backup);
      if ok && intact {
        NameIsNormal("");
        RoundTree(cp.workspaceArchive, tree, cp.workspaceName);
        GrownTransitive(tree, Unpacked(cp.workspaceArchive, cp.workspaceName).value, At(host.dirs, workspace));
      }
    }

    /** Any number of rounds, with the temporary names they use, keeps the configuration and
        the agent's state of a VM with an explicit backend and a non-empty environment, and,
        when the walks are complete, every file of its workspace. */
    method Rounds(names: seq<(string, string)>) returns (made: nat, ghost intact: bool)
      requires Valid() && Owned() && WellIn(Now()) && instanceInfo.Some? && OwnRestorable(instanceInfo.value)
      modifies Frame()
      ensures Valid() && rt.Others() == old(rt.Others()) && made <= |names|
      ensures names != [] && made == |names| ==> !cleanupFailed
      ensures made == |names| ==> SameRuntime(old(Now()))
      ensures made == |names| && intact ==>
                var workspace := old(instanceInfo).value.workspace;
                Grown(At(old(host.dirs), workspace), At(host.dirs, workspace))
    {
      hide Owned, Runtimes.Others, Runtimes.Valid, Runtimes.Held, Grown, WorkspaceTouched, Describes, GoodPlace;
      made, intact := 0, true;
      GrownReflexive(At(host.dirs, instanceInfo.value.workspace));
      while made < |names|
        invariant made <= |names| && Valid() && rt.Others() == old(rt.Others())
        invariant SameRuntime(old(Now())) && (made > 0 ==> !cleanupFailed)
        invariant intact ==>
                    var workspace := old(instanceInfo).value.workspace;
                    Grown(At(old(host.dirs), workspace), At(host.dirs, workspace))
      {
        ghost var mid := At(host.dirs, instanceInfo.value.workspace);
        var ok;
        ghost var complete;
        ok, complete := Round(names[made].0, names[made].1);
        if !ok {
          return;
        }
        if intact && complete {
          GrownTransitive(At(old(host.dirs), old(instanceInfo).value.workspace), mid,
                          At(host.dirs, old(instanceInfo).value.workspace));
        }
        intact := intact && complete;
        made := made + 1;
      }
    }

    /** What is known of a well VM and its configuration once its checkpoint is taken. */
    lemma RoundSaved(was: Standing, saved: Standing, state: string)
      requires WellIn(was) && KeptIn(was, saved) && was.info.Some? && OwnRestorable(was.info.value)
      requires LiveIn(saved).Some? && LiveIn(saved).value.agent == Up(Some(state)) && OwnedIn(saved)
      ensures saved.info.Some? && OwnRestorable(saved.info.value) && SameConfig(was.info.value, saved.info.value)
      ensures WellRecorded(saved.info.value, rt.cwd, rt.pid) && saved.manager == was.manager
      ensures LiveIn(was).Some? && LiveIn(was).value.agent == Up(Some(state))
    {
      hide WellRecorded;
    }

    /** The instance has the same configuration on the same manager, and runs with its agent
        in the same state. */
    ghost predicate SameRuntime(was: Standing)
      reads `instanceInfo, `runtimeManager, rt.Repr()
    {
      && Owned() && was.info.Some? && instanceInfo.Some? && SameConfig(was.info.value, instanceInfo.value)
      && runtimeManager == was.manager && IsWell(LiveIn(Now())) && LiveIn(was).Some?
      && LiveIn(Now()).value.agent == LiveIn(was).value.agent
    }

    lemma SavedWorkspace(saved: Saved, was: Standing)
      requires SavedFrom(saved, was)
      ensures TrimSpace(was.info.value.workspace) != ""
    {
      AbsoluteNotBlank(was.info.value.workspace);
    }
  }

  lemma NoGapInNothing(walk: WalkEnd)
    ensures !LeavesGap(walk, map[])
  {
  }

  /** The snapshot of a workspace tree, for a walk that was complete. */
  ghost predicate SnapshotOf(snapshot: Snapshot, tree: Tree, complete: bool) {
    && snapshot.Envelope? && snapshot.format == "vmdocker.runtime-workspace.v1" && snapshot.name == "workspace"
    && snapshot.archive.Packed?
    && (complete && WellFormed(tree) ==> Archives(snapshot.archive.members, tree))
  }

  lemma ArchiveIsSnapshot(dirs: Dirs, workspace: string, snapshot: Snapshot, complete: bool)
    requires snapshot.Envelope? && snapshot.format == "vmdocker.runtime-workspace.v1" && snapshot.name == "workspace"
    requires snapshot.archive.Packed?
    requires complete && WellFormed(At(dirs, workspace)) ==> Archives(snapshot.archive.members, At(dirs, workspace))
    ensures SnapshotOf(snapshot, At(dirs, workspace), complete)
  {
  }

  /** The checkpoint's name is normalised once more where the snapshot is decoded. */
  lemma NormalizedName(snapshot: Snapshot, name: string)
    ensures Unpacked(snapshot, NormalizeName(name)) == Unpacked(snapshot, name)
  {
    hide UnpackedText, NormalizeName;
    NameIsNormal(name);
  }

  lemma SameStageError(snapshot: Snapshot, name: string, hasParent: bool)
    ensures StageError(snapshot, NormalizeName(name), hasParent) == StageError(snapshot, name, hasParent)
  {
    hide UnpackedText, NormalizeName;
    NameIsNormal(name);
  }

  lemma NameIsNormal(name: string)
    ensures NormalizeName(NormalizeName(name)) == NormalizeName(name)
  {
    VisibleKept("workspace");
  }
}
