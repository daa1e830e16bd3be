/** The launch configuration that a checkpoint records and a restore resolves. */
module LaunchConfig {
  import opened Wrappers
  import opened GoStrings
  import opened GoPaths
  import opened RuntimeSchema
  import opened WorkspacePaths
  import opened WorkspaceRestore

  const CHECKPOINT_FORMAT := "vmdocker.workspace.v1"

  datatype Config = Config(runtimeSpec: RuntimeSpec, runtimeEnv: seq<string>)

  datatype Checkpoint = Checkpoint(
    format: string, workspaceArchive: Snapshot, workspaceName: string, runtimeState: string,
    backend: string, runtimeSpec: RuntimeSpec, runtimeEnv: seq<string>)

  datatype ConfigError = BadTags | BackendMismatch | EmptyBackend

  predicate IsBlank(s: string) { TrimSpace(s) == "" }

  predicate HasRuntimeSpec(spec: RuntimeSpec) {
    || !IsBlank(spec.backend) || !IsBlank(spec.image.name) || !IsBlank(spec.image.sha)
    || !IsBlank(spec.sandbox.agent) || !IsBlank(spec.sandbox.network) || !IsBlank(spec.sandbox.name)
  }

  function NormalizeRoot(spec: RuntimeSpec, target: string): RuntimeSpec {
    if IsBlank(target) then spec else WithWorkspace(spec, RootFromPath(target))
  }

  /** `tagSpec` and `tagEnv` are what the process tags give. */
  function CurrentConfig(info: InstanceInfo, tagSpec: Result<RuntimeSpec, ConfigError>, tagEnv: seq<string>)
    : Result<Config, ConfigError>
  {
    if HasRuntimeSpec(info.runtimeSpec) then
      Ok(Config(NormalizeRoot(info.runtimeSpec, info.workspace), info.runtimeEnv))
    else
      match tagSpec
      case Err(e) => Err(e)
      case Ok(spec) => Ok(Config(NormalizeRoot(spec.(backend := info.backend), info.workspace), tagEnv))
  }

  function ResolveRestore(cp: Checkpoint, fallbackSpec: RuntimeSpec, fallbackEnv: seq<string>, target: string)
    : Result<Config, ConfigError>
  {
    var fromCheckpoint := HasRuntimeSpec(cp.runtimeSpec);
    var spec := if fromCheckpoint then cp.runtimeSpec else fallbackSpec;
    if cp.backend != "" && fromCheckpoint && spec.backend != "" && spec.backend != cp.backend then Err(BackendMismatch)
    else
      var chosen := if cp.backend != "" then spec.(backend := cp.backend) else spec;
      if chosen.backend == "" then Err(EmptyBackend)
      else Ok(Config(NormalizeRoot(chosen, target), if |cp.runtimeEnv| == 0 then fallbackEnv else cp.runtimeEnv))
  }

  /** Some field of the specification besides the workspace is not blank. */
  predicate SaysSomething(spec: RuntimeSpec) {
    var fields :=
      {spec.backend, spec.image.name, spec.image.sha, spec.sandbox.agent, spec.sandbox.network, spec.sandbox.name};
    exists field :: field in fields && TrimSpace(field) != ""
  }

  lemma SpecExact(spec: RuntimeSpec)
    ensures HasRuntimeSpec(spec) <==> SaysSomething(spec)
  {
    hide TrimSpace;
    var fields :=
      {spec.backend, spec.image.name, spec.image.sha, spec.sandbox.agent, spec.sandbox.network, spec.sandbox.name};
    if HasRuntimeSpec(spec) {
      assert spec.backend in fields && spec.image.name in fields && spec.image.sha in fields;
      assert spec.sandbox.agent in fields && spec.sandbox.network in fields && spec.sandbox.name in fields;
    }
  }

  /** `spec` and `env` come from the checkpoint where it has them and from the tags where it
      has none: the backend, the image, and the sandbox but for its root. */
  ghost predicate LaunchedFrom(cp: Checkpoint, tagSpec: RuntimeSpec, tagEnv: seq<string>,
                               spec: RuntimeSpec, env: seq<string>) {
    var from := if SaysSomething(cp.runtimeSpec) then cp.runtimeSpec else tagSpec;
    && spec.image == from.image
    && spec.sandbox.agent == from.sandbox.agent && spec.sandbox.network == from.sandbox.network
    && spec.sandbox.name == from.sandbox.name
    && spec.backend == (if cp.backend != "" then cp.backend else from.backend) && spec.backend != ""
    && (SaysSomething(cp.runtimeSpec) && cp.backend != "" ==> cp.runtimeSpec.backend in {"", cp.backend})
    && env == (if cp.runtimeEnv != [] then cp.runtimeEnv else tagEnv)
  }

  lemma ResolvedFrom(cp: Checkpoint, tagSpec: RuntimeSpec, tagEnv: seq<string>, target: string)
    requires ResolveRestore(cp, tagSpec, tagEnv, target).Ok?
    ensures var config := ResolveRestore(cp, tagSpec, tagEnv, target).value;
            LaunchedFrom(cp, tagSpec, tagEnv, config.runtimeSpec, config.runtimeEnv)
  {
    hide RootFromPath, IsBlank, SaysSomething, HasRuntimeSpec;
    SpecExact(cp.runtimeSpec);
  }

  lemma BackendChosen(cp: Checkpoint, tagSpec: RuntimeSpec, tagEnv: seq<string>, target: string)
    requires ResolveRestore(cp, tagSpec, tagEnv, target).Ok?
    ensures var spec := ResolveRestore(cp, tagSpec, tagEnv, target).value.runtimeSpec;
            && spec.backend != ""
            && spec.backend == if cp.backend != "" then cp.backend
                               else if HasRuntimeSpec(cp.runtimeSpec) then cp.runtimeSpec.backend else tagSpec.backend
  {
    hide RootFromPath, IsBlank, HasRuntimeSpec;
  }

  lemma ResolveFacts(cp: Checkpoint, fallbackSpec: RuntimeSpec, fallbackEnv: seq<string>, target: string)
    requires !IsBlank(target) && ResolveRestore(cp, fallbackSpec, fallbackEnv, target).Ok?
    ensures var spec := ResolveRestore(cp, fallbackSpec, fallbackEnv, target).value.runtimeSpec;
            && spec.sandbox.workspace == RootFromPath(target) && spec.backend != ""
            && (!IsBlank(spec.backend) ==> HasRuntimeSpec(spec))
  {
    hide RootFromPath, IsBlank;
  }

  /** The checkpoint of a VM, as far as its launch configuration goes. */
  function CheckpointOf(config: Config, archive: Snapshot, state: string): Checkpoint {
    Checkpoint(CHECKPOINT_FORMAT, archive, "workspace", state, config.runtimeSpec.backend, config.runtimeSpec,
               config.runtimeEnv)
  }

  // ----- workspaces survive a relaunch -----

  lemma {:induction false} VisibleKept(s: string)
    requires s != "" && !IsSpace(s[0])
    ensures TrimRightSpace(s) != ""
  {
    if IsSpace(s[|s| - 1]) {
      VisibleKept(s[..|s| - 1]);
    }
  }

  lemma AbsoluteNotBlank(p: string)
    requires IsAbs(p)
    ensures !IsBlank(p)
  {
    VisibleKept(p);
  }

  /** Below any root, a relaunch from the path of a workspace resolves to the same path. */
  lemma RelaunchSameWorkspace(cwd: string, pid: string, root: string)
    requires PidFits(pid) && IsAbs(cwd) && Clean(cwd) == cwd
    ensures var ws := ResolveWorkspace(cwd, pid, root);
            ResolveWorkspace(cwd, pid, RootFromPath(ws)) == ws && IsAbs(ws)
  {
    var base := if root == "" then cwd else Abs(cwd, root);
    AbsIsAbsText(cwd, if root == "" then cwd else root);
    assert root == "" ==> Abs(cwd, cwd) == cwd;
    var segs :| AllNames(segs) && base == AbsText(segs);
    NamesNormal(segs, true);
    TextSegments(segs, true);
    assert base != "" && Abs(cwd, base) == base;
    assert ResolveWorkspace(cwd, pid, root) == ResolveWorkspace(cwd, pid, base);
    PidKeepsRoot(cwd, segs, pid);
    ResolveElements(cwd, segs, pid);
  }

  // ----- the configuration is stable -----

  /** An instance as a manager records it. */
  ghost predicate WellRecorded(info: InstanceInfo, cwd: string, pid: string) {
    && IsAbs(info.workspace) && HasRuntimeSpec(info.runtimeSpec)
    && info.runtimeSpec.sandbox.workspace == RootFromPath(info.workspace)
    && ResolveWorkspace(cwd, pid, RootFromPath(info.workspace)) == info.workspace
  }

  predicate SameConfig(a: InstanceInfo, b: InstanceInfo) {
    && a.backend == b.backend && a.workspace == b.workspace
    && a.runtimeSpec == b.runtimeSpec && a.runtimeEnv == b.runtimeEnv
  }

  /** The current configuration of a recorded instance is what was recorded. */
  lemma CurrentIsRecorded(info: InstanceInfo, cwd: string, pid: string, tagSpec: Result<RuntimeSpec, ConfigError>,
                          tagEnv: seq<string>)
    requires WellRecorded(info, cwd, pid)
    ensures CurrentConfig(info, tagSpec, tagEnv) == Ok(Config(info.runtimeSpec, info.runtimeEnv))
  {
    AbsoluteNotBlank(info.workspace);
    assert WithWorkspace(info.runtimeSpec, RootFromPath(info.workspace)) == info.runtimeSpec;
  }

  /** A VM's own checkpoint can be resolved exactly when it was spawned with an explicit
      backend; then it gives back the recorded configuration, unless the recorded
      environment is empty and the tags give another one. */
  lemma OwnCheckpointResolves(info: InstanceInfo, cwd: string, pid: string, archive: Snapshot, state: string,
                              fallbackSpec: RuntimeSpec, fallbackEnv: seq<string>)
    requires WellRecorded(info, cwd, pid)
    ensures var cp := CheckpointOf(Config(info.runtimeSpec, info.runtimeEnv), archive, state);
            var r := ResolveRestore(cp, fallbackSpec, fallbackEnv, info.workspace);
            && (r.Ok? <==> info.runtimeSpec.backend != "")
            && (r.Ok? ==> r.value.runtimeSpec == info.runtimeSpec)
            && (r.Ok? ==> (r.value.runtimeEnv == info.runtimeEnv <==> info.runtimeEnv != [] || fallbackEnv == []))
  {
    AbsoluteNotBlank(info.workspace);
    assert WithWorkspace(info.runtimeSpec, RootFromPath(info.workspace)) == info.runtimeSpec;
  }

  lemma ImageVisible()
    ensures !IsBlank("img")
  {
    VisibleKept("img");
  }

  /** An instance that was created without a backend, under `/r`: its own checkpoint cannot
      be restored, whatever the tags say. */
  lemma NoBackendExample(cwd: string, info: InstanceInfo, archive: Snapshot, state: string,
                         fallbackSpec: RuntimeSpec, fallbackEnv: seq<string>)
    requires info.runtimeSpec == RuntimeSpec("", ImageInfo("img", "", "", ""), SandboxSpec("", "/r", "", ""))
    requires info.workspace == ResolveWorkspace(cwd, "p", "/r")
    ensures WellRecorded(info, cwd, "p")
    ensures var cp := CheckpointOf(Config(info.runtimeSpec, info.runtimeEnv), archive, state);
            ResolveRestore(cp, fallbackSpec, fallbackEnv, info.workspace) == Err(EmptyBackend)
  {
    hide ResolveWorkspace, RootFromPath, TrimSpace;
    SingleElementFits("p");
    assert AbsText(["r"]) == "/r";
    PidKeepsRoot(cwd, ["r"], "p");
    ResolveElements(cwd, ["r"], "p");
    ImageVisible();
    OwnCheckpointResolves(info, cwd, "p", archive, state, fallbackSpec, fallbackEnv);
  }

  /** `next` is created from the checkpoint of `info`. */
  ghost predicate Round(info: InstanceInfo, next: InstanceInfo, cwd: string, pid: string, archive: Snapshot,
                        state: string, fallbackSpec: RuntimeSpec, fallbackEnv: seq<string>) {
    var cp := CheckpointOf(Config(info.runtimeSpec, info.runtimeEnv), archive, state);
    var r := ResolveRestore(cp, fallbackSpec, fallbackEnv, info.workspace);
    && r.Ok? && next.backend == r.value.runtimeSpec.backend
    && next.workspace == ResolveWorkspace(cwd, pid, r.value.runtimeSpec.sandbox.workspace)
    && next.runtimeSpec == WithWorkspace(r.value.runtimeSpec, RootFromPath(next.workspace))
    && next.runtimeEnv == r.value.runtimeEnv
  }

  lemma RoundKeepsConfig(info: InstanceInfo, next: InstanceInfo, cwd: string, pid: string, archive: Snapshot,
                         state: string, fallbackSpec: RuntimeSpec, fallbackEnv: seq<string>)
    requires WellRecorded(info, cwd, pid) && info.runtimeSpec.backend == info.backend && info.runtimeEnv != []
    requires Round(info, next, cwd, pid, archive, state, fallbackSpec, fallbackEnv)
    ensures SameConfig(info, next) && WellRecorded(next, cwd, pid)
  {
    OwnCheckpointResolves(info, cwd, pid, archive, state, fallbackSpec, fallbackEnv);
    assert WithWorkspace(info.runtimeSpec, RootFromPath(info.workspace)) == info.runtimeSpec;
  }

  /** Any number of checkpoint and restore rounds keeps backend, image, sandbox fields,
      environment and workspace path. */
  lemma {:induction false} RoundsKeepConfig(infos: seq<InstanceInfo>, cwd: string, pid: string, archives: seq<Snapshot>,
                                            states: seq<string>, fallbackSpec: RuntimeSpec, fallbackEnv: seq<string>)
    requires |infos| > 0 && |archives| == |states| == |infos| - 1
    requires WellRecorded(infos[0], cwd, pid) && infos[0].runtimeSpec.backend == infos[0].backend
    requires infos[0].runtimeEnv != []
    requires forall i | 0 <= i < |infos| - 1 ::
               Round(infos[i], infos[i + 1], cwd, pid, archives[i], states[i], fallbackSpec, fallbackEnv)
    ensures SameConfig(infos[0], infos[|infos| - 1])
  {
    if |infos| > 1 {
      RoundKeepsConfig(infos[0], infos[1], cwd, pid, archives[0], states[0], fallbackSpec, fallbackEnv);
      forall i | 0 <= i < |infos| - 2
        ensures Round(infos[1..][i], infos[1..][i + 1], cwd, pid, archives[1..][i], states[1..][i], fallbackSpec,
                      fallbackEnv)
      {
        assert Round(infos[i + 1], infos[i + 1 + 1], cwd, pid, archives[i + 1], states[i + 1], fallbackSpec,
                     fallbackEnv);
      }
      RoundsKeepConfig(infos[1..], cwd, pid, archives[1..], states[1..], fallbackSpec, fallbackEnv);
    }
  }
}
