/** Docker containers as runtimes. */
module DockerManager {
  import opened Wrappers
  import opened RuntimeSchema
  import opened PortAllocator
  import opened HostFiles
  import opened FileTrees
  import opened WorkspacePaths
  import opened WorkspaceRestore

  datatype ManagerError =
    | EnvironmentFailed | NoPorts | WorkspaceFailed | CreateFailed | NotFound | CommandFailed | RemovalFailed

  const NAME_PREFIX := "hymatrix_"

  /** The workspace may have gained layout directories, and the directory for temporary
      files beside it may have been made; nothing else on the host is different. */
  ghost predicate WorkspaceTouched(before: Dirs, after: Dirs, workspace: string) {
    && SameOutside(before, after, {workspace, TmpDir(workspace)})
    && GrownAt(before, after, workspace) && GrownAt(before, after, TmpDir(workspace))
  }

  /** Every state of the host from the step `start` on differs by no more than that. */
  ghost predicate TouchedSince(before: Dirs, history: seq<Dirs>, start: nat, workspace: string) {
    forall k | start <= k < |history| :: WorkspaceTouched(before, history[k], workspace)
  }

  ghost predicate SameOutside(before: Dirs, after: Dirs, paths: set<string>) {
    forall q | q !in paths :: Look(before, q) == Look(after, q)
  }

  ghost predicate GrownAt(before: Dirs, after: Dirs, path: string) {
    GrownLook(Look(before, path), Look(after, path))
  }

  /** A directory that is not there may be made. */
  ghost predicate GrownLook(before: Option<Tree>, after: Option<Tree>) {
    && Grown(if before.Some? then before.value else map[], if after.Some? then after.value else map[])
    && (before.Some? ==> after.Some?)
  }

  lemma TakenAndReturned(used: map<int, bool>, port: int)
    requires port !in used
    ensures used[port := true] - {port} == used
  {
  }

  lemma NamesDiffer(instances: Instances, pid: string)
    requires pid !in instances
    ensures forall other | other in instances :: NAME_PREFIX + other != NAME_PREFIX + pid
  {
    forall other | other in instances ensures NAME_PREFIX + other != NAME_PREFIX + pid {
      assert (NAME_PREFIX + other)[|NAME_PREFIX|..] == other && (NAME_PREFIX + pid)[|NAME_PREFIX|..] == pid;
    }
  }

  /** Each instance has the container of its name, and no two containers share an ID. */
  ghost predicate HasContainers(instances: Instances, containers: map<string, string>) {
    && (forall pid | pid in instances ::
          NAME_PREFIX + pid in containers && containers[NAME_PREFIX + pid] == instances[pid].id)
    && forall a, b | a in containers && b in containers && a != b :: containers[a] != containers[b]
  }

  lemma NewName(instances: Instances, containers: map<string, string>, pid: string)
    requires HasContainers(instances, containers) && NAME_PREFIX + pid !in containers
    ensures pid !in instances
  {
  }

  lemma ContainerAdded(instances: Instances, containers: map<string, string>, pid: string, info: InstanceInfo)
    requires HasContainers(instances, containers) && pid !in instances && info.id !in containers.Values
    ensures HasContainers(instances[pid := info], containers[NAME_PREFIX + pid := info.id])
  {
    NamesDiffer(instances, pid);
  }

  /** The containers that do not have the ID are those of other names. */
  lemma ContainerRemoved(instances: Instances, containers: map<string, string>, pid: string)
    requires HasContainers(instances, containers) && pid in instances
    ensures (map name | name in containers && containers[name] != instances[pid].id :: containers[name])
         == containers - {NAME_PREFIX + pid}
    ensures HasContainers(instances - {pid}, containers - {NAME_PREFIX + pid})
  {
    NamesDiffer(instances - {pid}, pid);
    assert containers[NAME_PREFIX + pid] == instances[pid].id;
  }

  lemma Untouched(dirs: Dirs, workspace: string)
    ensures WorkspaceTouched(dirs, dirs, workspace)
  {
    TouchedBy(dirs, dirs, dirs, workspace);
  }

  lemma GrewIsTouched(before: Dirs, mid: Dirs, after: Dirs, workspace: string)
    requires GrewAt(before, mid, workspace) && GrewAt(mid, after, TmpDir(workspace))
    ensures WorkspaceTouched(before, after, workspace)
  {
    TouchedBy(before, mid, after, workspace);
  }

  /** Steps at the workspace and then, from step `split` on, at the directory beside it. */
  lemma StepsTouched(before: Dirs, mid: Dirs, history: seq<Dirs>, start: nat, split: nat, workspace: string)
    requires start <= split <= |history|
    requires GrewSince(before, history[..split], start, workspace) && GrewAt(before, mid, workspace)
    requires GrewSince(mid, history, split, TmpDir(workspace))
    ensures TouchedSince(before, history, start, workspace)
  {
    hide GrewAt, WorkspaceTouched, TmpDir;
    forall k | start <= k < |history|
      ensures WorkspaceTouched(before, history[k], workspace)
    {
      if k < split {
        assert history[..split][k] == history[k];
        GrewReflexive(history[k], TmpDir(workspace));
        GrewIsTouched(before, history[k], history[k], workspace);
      } else {
        GrewIsTouched(before, mid, history[k], workspace);
      }
    }
  }

  lemma GrewReflexive(dirs: Dirs, path: string)
    ensures GrewAt(dirs, dirs, path)
  {
  }

  /** What a container needs of the host: the workspace with its layout, and the directory
      for temporary files beside it. */
  ghost predicate Prepared(dirs: Dirs, workspace: string) {
    && workspace in dirs && TmpDir(workspace) in dirs
    && forall p | p in LAYOUT_DIRS :: p in dirs[workspace]
  }

  lemma LaidOut(tree: Tree, mid: Dirs, after: Dirs, workspace: string)
    requires workspace in mid && mid[workspace] == WithLayout(tree, LAYOUT)
    requires GrewAt(mid, after, TmpDir(workspace)) && TmpDir(workspace) in after
    ensures Prepared(after, workspace)
  {
    hide TmpDir, WithLayout, LAYOUT_DIRS;
    LayoutExact(tree);
  }

  method PrepareWorkspace(host: Host, workspace: string) returns (ok: bool)
    modifies host
    ensures old(host.faulted) ==> host.faulted
    ensures WorkspaceTouched(old(host.dirs), host.dirs, workspace)
    ensures ok ==> Prepared(host.dirs, workspace)
    ensures old(host.history) <= host.history
    ensures TouchedSince(old(host.dirs), host.history, |old(host.history)|, workspace)
  {
    hide GrewAt, WorkspaceTouched, WithLayout, TmpDir, Prepared;
    ghost var dirs := host.dirs;
    ok := EnsureLayout(host, workspace);
    ghost var mid, split := host.dirs, |host.history|;
    ghost var steps := host.history;
    assert steps[..split] == steps;
    GrewReflexive(mid, TmpDir(workspace));
    GrewIsTouched(dirs, mid, mid, workspace);
    if !ok {
      StepsTouched(dirs, mid, host.history, |old(host.history)|, split, workspace);
      return;
    }
    ok := EnsureTmpDir(host, workspace);
    GrewIsTouched(dirs, mid, host.dirs, workspace);
    assert host.history[..split] == steps;
    StepsTouched(dirs, mid, host.history, |old(host.history)|, split, workspace);
    if ok { LaidOut(At(dirs, workspace), mid, host.dirs, workspace); }
  }

  lemma TouchedBy(before: Dirs, mid: Dirs, after: Dirs, workspace: string)
    requires OnlyAt(before, mid, workspace) && GrownAt(before, mid, workspace)
    requires OnlyAt(mid, after, TmpDir(workspace)) && GrownAt(mid, after, TmpDir(workspace))
    ensures WorkspaceTouched(before, after, workspace)
  {
    var tmp := TmpDir(workspace);
    GrownTransitive(At(before, workspace), At(mid, workspace), At(after, workspace));
    GrownTransitive(At(before, tmp), At(mid, tmp), At(after, tmp));
  }

  method EnsureTmpDir(host: Host, workspace: string) returns (ok: bool)
    modifies host
    ensures old(host.faulted) ==> host.faulted
    ensures GrewAt(old(host.dirs), host.dirs, TmpDir(workspace)) && (ok ==> TmpDir(workspace) in host.dirs)
    ensures old(host.history) <= host.history
    ensures GrewSince(old(host.dirs), host.history, |old(host.history)|, TmpDir(workspace))
  {
    var layout: seq<seq<string>> := [[]];
    assert [] in LAYOUT by { assert LAYOUT[0] == []; }
    ok := EnsureDirs(host, TmpDir(workspace), layout);
  }

  class DockerManager {
    var instances: Instances
    const ports: Allocator
    /** The daemon's containers: their ids by name. */
    var containers: map<string, string>
    /** The registered instances whose container is up. */
    var up: set<string>

    constructor (ports: Allocator)
      requires ports.Valid() && ports.used == map[]
      ensures Valid() && this.ports == ports && instances == map[]
    {
      instances := map[];
      this.ports := ports;
      containers := map[];
      up := {};
    }

    /** The ports in use are exactly those of the registered instances, no two of them
        share one, and each has its container. */
    ghost predicate Valid()
      reads this, ports
    {
      && ports.Valid()
      && ports.used.Keys == PortsOf(instances) && DistinctPorts(instances)
      && HasContainers(instances, containers) && up <= instances.Keys
    }

    method CreateInstance(host: Host, cwd: string, pid: string, spec: RuntimeSpec, env: seq<string>,
                          available: int -> bool)
      returns (r: Result<InstanceInfo, ManagerError>)
      requires Valid()
      modifies this, ports, host
      ensures Valid()
      ensures pid in old(instances) || "hymatrix_" + pid in old(containers) ==> r.Err?
      ensures r.Err? ==> instances == old(instances) && ports.used == old(ports.used) && containers == old(containers)
      ensures up == old(up)
      ensures r.Ok? ==>
                && instances == old(instances)[pid := r.value] && pid !in old(instances)
                && old(ports.Usable(r.value.port, available))
                && (forall port | old(ports.Usable(port, available)) :: r.value.port <= port)
                && Recorded(r.value, DOCKER, ResolveWorkspace(cwd, pid, spec.sandbox.workspace), spec, env)
                && r.value.name == pid && r.value.agent == ""
                && containers == old(containers)["hymatrix_" + pid := r.value.id]
      ensures r == Err(NoPorts) ==> forall port :: !old(ports.Usable(port, available))
      ensures WorkspaceTouched(old(host.dirs), host.dirs, ResolveWorkspace(cwd, pid, spec.sandbox.workspace))
      ensures r.Ok? ==> Prepared(host.dirs, ResolveWorkspace(cwd, pid, spec.sandbox.workspace))
      ensures old(host.history) <= host.history
      ensures TouchedSince(old(host.dirs), host.history, |old(host.history)|,
                           ResolveWorkspace(cwd, pid, spec.sandbox.workspace))
    {
      var workspace := ResolveWorkspace(cwd, pid, spec.sandbox.workspace);
      r := Create(host, pid, workspace, spec, env, available);
    }

    method Create(host: Host, pid: string, workspace: string, spec: RuntimeSpec, env: seq<string>,
                  available: int -> bool)
      returns (r: Result<InstanceInfo, ManagerError>)
      requires Valid()
      modifies this, ports, host
      ensures Valid()
      ensures pid in old(instances) || "hymatrix_" + pid in old(containers) ==> r.Err?
      ensures r.Err? ==> instances == old(instances) && ports.used == old(ports.used) && containers == old(containers)
      ensures up == old(up)
      ensures r.Ok? ==>
                && instances == old(instances)[pid := r.value] && pid !in old(instances)
                && old(ports.Usable(r.value.port, available))
                && (forall port | old(ports.Usable(port, available)) :: r.value.port <= port)
                && Recorded(r.value, DOCKER, workspace, spec, env)
                && r.value.name == pid && r.value.agent == ""
                && containers == old(containers)["hymatrix_" + pid := r.value.id]
      ensures r == Err(NoPorts) ==> forall port :: !old(ports.Usable(port, available))
      ensures WorkspaceTouched(old(host.dirs), host.dirs, workspace)
      ensures r.Ok? ==> Prepared(host.dirs, workspace)
      ensures old(host.history) <= host.history
      ensures TouchedSince(old(host.dirs), host.history, |old(host.history)|, workspace)
    {
      Untouched(host.dirs, workspace);
      var environmentOk: bool := *;
      if !environmentOk {
        return Err(EnvironmentFailed);
      }
      var port := ports.Allocate(available);
      if port.None? {
        return Err(NoPorts);
      }
      TakenAndReturned(old(ports.used), port.value);
      label Allocated:
      var ok := PrepareWorkspace(host, workspace);
      assert unchanged@Allocated(this, ports);
      if !ok {
        ports.Release(port.value);
        return Err(WorkspaceFailed);
      }
      label Made:
      r := CreateContainer(pid, port.value, workspace, spec, env);
      assert unchanged@Made(host);
    }

    /** The last step, with the port already taken. */
    method CreateContainer(pid: string, port: int, workspace: string, spec: RuntimeSpec, env: seq<string>)
      returns (r: Result<InstanceInfo, ManagerError>)
      requires ports.Valid() && port in ports.used && port !in PortsOf(instances)
      requires ports.used.Keys == PortsOf(instances) + {port} && DistinctPorts(instances)
      requires HasContainers(instances, containers)
      requires up <= instances.Keys
      modifies this, ports
      ensures Valid()
      ensures pid in old(instances) || NAME_PREFIX + pid in old(containers) ==> r.Err?
      ensures up == old(up)
      ensures r.Err? ==>
                && r.error == CreateFailed && instances == old(instances)
                && ports.used == old(ports.used) - {port} && containers == old(containers)
      ensures r.Ok? ==>
                && instances == old(instances)[pid := r.value] && pid !in old(instances) && r.value.port == port
                && Recorded(r.value, DOCKER, workspace, spec, env)
                && r.value.name == pid && r.value.agent == ""
                && containers == old(containers)[NAME_PREFIX + pid := r.value.id]
    {
      hide PortsOf, DistinctPorts, HasContainers, WithWorkspace, RootFromPath;
      var id: string := *;
      var created: bool := *;
      var name := NAME_PREFIX + pid;
      if !created || name in containers || id in containers.Values {
        ports.Release(port);
        return Err(CreateFailed);
      }
      var info := InstanceInfo(id, pid, port, Created, DOCKER, "", workspace,
                               WithWorkspace(spec, RootFromPath(workspace)), env);
      NewName(instances, containers, pid);
      PortsAfterAdd(instances, pid, info);
      ContainerAdded(instances, containers, pid, info);
      containers := containers[name := id];
      instances := instances[pid := info];
      r := Ok(info);
    }

    method RemoveInstance(pid: string) returns (err: Option<ManagerError>)
      requires Valid()
      modifies this, ports
      ensures Valid()
      ensures err == None ==>
                && pid in old(instances) && instances == old(instances) - {pid} && up == old(up) - {pid}
                && containers == old(containers) - {"hymatrix_" + pid}
                && ports.used == old(ports.used) - {old(instances)[pid].port}
      ensures err.Some? ==>
                && instances == old(instances) && ports.used == old(ports.used) && up == old(up)
                && containers == old(containers)
      ensures err == Some(NotFound) <==> pid !in old(instances)
    {
      hide PortsOf, DistinctPorts, HasContainers;
      if pid !in instances {
        return Some(NotFound);
      }
      var removed: bool := *;
      if !removed {
        return Some(CommandFailed);
      }
      var info := instances[pid];
      PortsAfterRemove(instances, pid);
      ContainerRemoved(instances, containers, pid);
      containers := map name | name in containers && containers[name] != info.id :: containers[name];
      ports.Release(info.port);
      instances := instances - {pid};
      up := up - {pid};
      err := None;
    }

    method StartInstance(pid: string) returns (err: Option<ManagerError>)
      requires Valid()
      modifies this`instances, this`up
      ensures Valid()
      ensures err == None ==>
                pid in old(instances) && instances == old(instances)[pid := old(instances)[pid].(status := Running)]
      ensures up == if err == None then old(up) + {pid} else old(up)
      ensures err.Some? ==> instances == old(instances)
      ensures err == Some(NotFound) <==> pid !in old(instances)
    {
      err := SetStatus(pid, Running);
    }

    method StopInstance(pid: string) returns (err: Option<ManagerError>)
      requires Valid()
      modifies this`instances, this`up
      ensures Valid()
      ensures err == None ==>
                pid in old(instances) && instances == old(instances)[pid := old(instances)[pid].(status := Stopped)]
      ensures up == if err == None then old(up) - {pid} else old(up)
      ensures err.Some? ==> instances == old(instances)
      ensures err == Some(NotFound) <==> pid !in old(instances)
    {
      err := SetStatus(pid, Stopped);
    }

    /** A daemon command on an instance, and the status it leaves. */
    method SetStatus(pid: string, status: Status) returns (err: Option<ManagerError>)
      requires Valid()
      modifies this`instances, this`up
      ensures Valid()
      ensures err == None ==>
                pid in old(instances) && instances == old(instances)[pid := old(instances)[pid].(status := status)]
      ensures up == if err.Some? then old(up) else if status == Running then old(up) + {pid} else old(up) - {pid}
      ensures err.Some? ==> instances == old(instances)
      ensures err == Some(NotFound) <==> pid !in old(instances)
    {
      if pid !in instances {
        return Some(NotFound);
      }
      var done: bool := *;
      if !done {
        return Some(CommandFailed);
      }
      assert HasContainers(instances[pid := instances[pid].(status := status)], containers);
      PortsAfterStatus(instances, pid, instances[pid].(status := status));
      instances := instances[pid := instances[pid].(status := status)];
      up := if status == Running then up + {pid} else up - {pid};
      err := None;
    }
  }

  /** What is on record for a new instance. */
  ghost predicate Recorded(info: InstanceInfo, backend: string, workspace: string, spec: RuntimeSpec,
                           env: seq<string>) {
    && info.status == Created && info.backend == backend && info.workspace == workspace
    && info.runtimeSpec == WithWorkspace(spec, RootFromPath(workspace)) && info.runtimeEnv == env
  }

  // ----- runs -----

  datatype Op =
    | Create(pid: string, spec: RuntimeSpec, env: seq<string>, available: int -> bool)
    | Start(pid: string)
    | Stop(pid: string)
    | Remove(pid: string)

  /** Port conservation over every run of operations, whatever calls fail. */
  method RunOperations(dm: DockerManager, host: Host, cwd: string, ops: seq<Op>)
    requires dm.Valid()
    modifies dm, dm.ports, host
    ensures dm.ports.used.Keys == PortsOf(dm.instances) && DistinctPorts(dm.instances)
    ensures forall pid | pid in dm.instances :: dm.ports.start <= dm.instances[pid].port <= dm.ports.end
  {
    for i := 0 to |ops|
      invariant dm.Valid()
    {
      match ops[i] {
        case Create(pid, spec, env, available) =>
          var created := dm.CreateInstance(host, cwd, pid, spec, env, available);
        case Start(pid) =>
          var started := dm.StartInstance(pid);
        case Stop(pid) =>
          var stopped := dm.StopInstance(pid);
        case Remove(pid) =>
          var removed := dm.RemoveInstance(pid);
      }
    }
    forall pid | pid in dm.instances ensures dm.ports.start <= dm.instances[pid].port <= dm.ports.end {
      assert dm.instances[pid].port in PortsOf(dm.instances);
    }
  }
}
