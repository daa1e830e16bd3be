/** Docker sandboxes as runtimes. */
module SandboxManager {
  import opened Wrappers
  import opened RuntimeSchema
  import opened PortAllocator
  import opened HostFiles
  import opened WorkspacePaths
  import opened WorkspaceRestore
  import opened DockerManager
  import ShellQuoting

  datatype LaunchSpec = LaunchSpec(runtimeSpec: RuntimeSpec, runtimeEnv: seq<string>, workspace: string)

  /** What inspecting an image gives. */
  datatype ImageConfig = ImageConfig(entrypoint: seq<string>, cmd: seq<string>)

  /** A command run in a sandbox, with the environment the runtime is given and the workspace
      the remaining variables are set from. */
  datatype Execution = Execution(sandbox: string, env: seq<string>, workspace: string, command: string)

  const DEFAULT_AGENT := "shell"
  const MAX_PID_PREFIX := 10

  function DefaultName(pid: string): string {
    NAME_PREFIX + if |pid| > MAX_PID_PREFIX then pid[..MAX_PID_PREFIX] else pid
  }

  function NameOf(pid: string, spec: RuntimeSpec): string {
    if spec.sandbox.name == "" then DefaultName(pid) else spec.sandbox.name
  }

  /** Without a name of their own, two instances ask for the same sandbox exactly when they
      are one process or their process ids share the first ten characters. */
  lemma DefaultNamesCollide(a: string, b: string)
    ensures DefaultName(a) == DefaultName(b) <==> a == b || (|a| >= 10 && |b| >= 10 && a[..10] == b[..10])
    ensures |a| <= 10 ==> DefaultName(a) == "hymatrix_" + a
    ensures |a| > 10 ==> DefaultName(a) == "hymatrix_" + a[..10]
  {
    var n := |NAME_PREFIX|;
    assert DefaultName(a)[n..] == if |a| > 10 then a[..10] else a;
    assert DefaultName(b)[n..] == if |b| > 10 then b[..10] else b;
    assert |a| == 10 ==> a[..10] == a;
    assert |b| == 10 ==> b[..10] == b;
  }

  method EnsureRoot(host: Host, workspace: string) returns (ok: bool)
    modifies host
    ensures old(host.faulted) ==> host.faulted
    ensures WorkspaceTouched(old(host.dirs), host.dirs, workspace)
    ensures ok ==> workspace in host.dirs
    ensures old(host.history) <= host.history
    ensures TouchedSince(old(host.dirs), host.history, |old(host.history)|, workspace)
  {
    ghost var dirs := host.dirs;
    var root: seq<seq<string>> := [[]];
    assert [] in LAYOUT by { assert LAYOUT[0] == []; }
    ok := EnsureDirs(host, workspace, root);
    assert host.history[..|host.history|] == host.history;
    TouchedBy(dirs, host.dirs, host.dirs, workspace);
    StepsTouched(dirs, host.dirs, host.history, |old(host.history)|, |host.history|, workspace);
  }

  /** The CLI knows every registered instance under a name of its own. */
  ghost predicate NamesKnown(instances: Instances, names: set<string>) {
    && (forall pid | pid in instances :: instances[pid].id in names)
    && forall a, b | a in instances && b in instances && a != b :: instances[a].id != instances[b].id
  }

  lemma NamesAfter(instances: Instances, names: set<string>, pid: string, info: InstanceInfo)
    requires NamesKnown(instances, names)
    ensures info.id !in names ==> NamesKnown(instances[pid := info], names + {info.id})
    ensures pid in instances ==> NamesKnown(instances - {pid}, names - {instances[pid].id})
    ensures pid in instances && info.id == instances[pid].id ==> NamesKnown(instances[pid := info], names)
  {
  }

  /** What each instance is launched with is what was recorded for it. */
  ghost predicate SpecsKnown(instances: Instances, specs: map<string, LaunchSpec>) {
    && specs.Keys == instances.Keys
    && forall pid | pid in instances && pid in specs ::
         && specs[pid].workspace == instances[pid].workspace && specs[pid].runtimeEnv == instances[pid].runtimeEnv
         && specs[pid].runtimeSpec.image == instances[pid].runtimeSpec.image
  }

  lemma SpecsAfter(instances: Instances, specs: map<string, LaunchSpec>, pid: string, info: InstanceInfo,
                   spec: LaunchSpec)
    requires SpecsKnown(instances, specs)
    ensures spec.workspace == info.workspace && spec.runtimeEnv == info.runtimeEnv
            && spec.runtimeSpec.image == info.runtimeSpec.image ==>
              SpecsKnown(instances[pid := info], specs[pid := spec])
    ensures pid in instances && SameLaunch(info, instances[pid]) ==> SpecsKnown(instances[pid := info], specs)
  {
  }

  lemma SpecsRemoved(instances: Instances, specs: map<string, LaunchSpec>, pid: string)
    requires SpecsKnown(instances, specs)
    ensures SpecsKnown(instances - {pid}, specs - {pid})
  {
  }

  /** A new instance with a free port, in the place of any that was registered. */
  lemma PortsAfterRecord(instances: Instances, pid: string, info: InstanceInfo)
    requires DistinctPorts(instances) && info.port !in PortsOf(instances)
    ensures DistinctPorts(instances[pid := info])
    ensures PortsOf(instances[pid := info])
         == PortsOf(instances) - (if pid in instances then {instances[pid].port} else {}) + {info.port}
    ensures pid in instances ==> instances[pid].port in PortsOf(instances)
  {
    if pid in instances {
      PortsAfterOverwrite(instances, pid, info);
      PortsAfterRemove(instances, pid);
      PortsAfterAdd(instances - {pid}, pid, info);
      assert (instances - {pid})[pid := info] == instances[pid := info];
    } else {
      PortsAfterAdd(instances, pid, info);
    }
  }

  /** A removal gives back exactly the port of the instance: what was in use besides stays. */
  lemma PortsAfterRelease(used: set<int>, instances: Instances, pid: string)
    requires pid in instances && DistinctPorts(instances) && PortsOf(instances) <= used
    ensures DistinctPorts(instances - {pid}) && PortsOf(instances - {pid}) <= used - {instances[pid].port}
    ensures used - {instances[pid].port} == PortsOf(instances - {pid}) <==> used == PortsOf(instances)
  {
    PortsAfterRemove(instances, pid);
    assert instances[pid].port in PortsOf(instances);
    if used - {instances[pid].port} == PortsOf(instances - {pid}) {
      assert used == used - {instances[pid].port} + {instances[pid].port};
    }
  }

  class SandboxManager {
    var instances: Instances
    var launchSpecs: map<string, LaunchSpec>
    const ports: Allocator
    /** The names of the sandboxes the CLI knows. */
    var names: set<string>
    /** The registered instances whose sandbox is up. */
    var up: set<string>

    constructor (ports: Allocator)
      requires ports.Valid() && ports.used == map[]
      ensures Valid() && this.ports == ports && instances == map[]
    {
      instances := map[];
      launchSpecs := map[];
      this.ports := ports;
      names, up := {}, {};
    }

    /** Every registered instance has a port of its own among those in use, and the
        instances and the launch specs have the same keys. */
    ghost predicate Sound()
      reads this, ports
    {
      && ports.Valid()
      && PortsOf(instances) <= ports.used.Keys && DistinctPorts(instances)
      && SpecsKnown(instances, launchSpecs)
      && up <= instances.Keys && NamesKnown(instances, names)
    }

    /** And no other port is in use. */
    ghost predicate Valid()
      reads this, ports
    {
      Sound() && ports.used.Keys == PortsOf(instances)
    }

    /** The port is in use and no registered instance has it. */
    ghost predicate Leaked(port: int)
      reads this, ports
    {
      port in ports.used && port !in PortsOf(instances)
    }

    /** The sandbox backend does not check that `pid` is unregistered: after a success the
        books balance exactly when they did before and it was. */
    method CreateInstance(host: Host, cwd: string, pid: string, spec: RuntimeSpec, env: seq<string>,
                          available: int -> bool)
      returns (r: Result<InstanceInfo, ManagerError>)
      requires Sound()
      modifies this, ports, host
      ensures Sound()
      ensures r.Err? ==> instances == old(instances) && ports.used == old(ports.used) && launchSpecs == old(launchSpecs)
      ensures up == (if r.Ok? then old(up) - {pid} else old(up)) && (r.Err? ==> names == old(names))
      ensures (if spec.sandbox.name != "" then spec.sandbox.name else DefaultName(pid)) in old(names) ==> r.Err?
      ensures r.Ok? ==> (Valid() <==> old(Valid()) && pid !in old(instances))
      ensures r.Ok? && pid in old(instances) ==> Leaked(old(instances)[pid].port)
      ensures r.Ok? ==>
                && instances == old(instances)[pid := r.value]
                && old(ports.Usable(r.value.port, available))
                && (forall port | old(ports.Usable(port, available)) :: r.value.port <= port)
                && Recorded(r.value, SANDBOX, ResolveWorkspace(cwd, pid, spec.sandbox.workspace), spec, env)
                && launchSpecs
                == old(launchSpecs)[pid := LaunchSpec(spec, env, ResolveWorkspace(cwd, pid, spec.sandbox.workspace))]
                && r.value.name == pid
                && r.value.agent == (if spec.sandbox.agent == "" then "shell" else spec.sandbox.agent)
                && r.value.id == (if spec.sandbox.name != "" then spec.sandbox.name else DefaultName(pid))
                && r.value.id !in old(names)
                && names == old(names) + {r.value.id}
      ensures WorkspaceTouched(old(host.dirs), host.dirs, ResolveWorkspace(cwd, pid, spec.sandbox.workspace))
      ensures r.Ok? ==> ResolveWorkspace(cwd, pid, spec.sandbox.workspace) in host.dirs
      ensures old(host.history) <= host.history
      ensures TouchedSince(old(host.dirs), host.history, |old(host.history)|,
                           ResolveWorkspace(cwd, pid, spec.sandbox.workspace))
    {
      var workspace := ResolveWorkspace(cwd, pid, spec.sandbox.workspace);
      r := Create(host, pid, workspace, spec, env, available);
    }

    method Create(host: Host, pid: string, workspace: string, spec: RuntimeSpec, env: seq<string>,
                  available: int -> bool)
      returns (r: Result<InstanceInfo, ManagerError>)
      requires Sound()
      modifies this, ports, host
      ensures Sound()
      ensures r.Err? ==> instances == old(instances) && ports.used == old(ports.used) && launchSpecs == old(launchSpecs)
      ensures up == (if r.Ok? then old(up) - {pid} else old(up)) && (r.Err? ==> names == old(names))
      ensures (if spec.sandbox.name != "" then spec.sandbox.name else DefaultName(pid)) in old(names) ==> r.Err?
      ensures r.Ok? ==> (Valid() <==> old(Valid()) && pid !in old(instances))
      ensures r.Ok? && pid in old(instances) ==> Leaked(old(instances)[pid].port)
      ensures r.Ok? ==>
                && instances == old(instances)[pid := r.value]
                && old(ports.Usable(r.value.port, available))
                && (forall port | old(ports.Usable(port, available)) :: r.value.port <= port)
                && Recorded(r.value, SANDBOX, workspace, spec, env)
                && launchSpecs == old(launchSpecs)[pid := LaunchSpec(spec, env, workspace)]
                && r.value.name == pid
                && r.value.agent == (if spec.sandbox.agent == "" then "shell" else spec.sandbox.agent)
                && r.value.id == (if spec.sandbox.name != "" then spec.sandbox.name else DefaultName(pid))
                && r.value.id !in old(names)
                && names == old(names) + {r.value.id}
      ensures WorkspaceTouched(old(host.dirs), host.dirs, workspace)
      ensures r.Ok? ==> workspace in host.dirs
      ensures old(host.history) <= host.history
      ensures TouchedSince(old(host.dirs), host.history, |old(host.history)|, workspace)
    {
      Untouched(host.dirs, workspace);
      var environmentOk: bool := *;
      if !environmentOk {
        return Err(EnvironmentFailed);
      }
      var port := ports.Allocate(available);
      if port.None? {
        return Err(NoPorts);
      }
      TakenAndReturned(old(ports.used), port.value);
      label Allocated:
      var ok := EnsureRoot(host, workspace);
      assert unchanged@Allocated(this, ports);
      if !ok {
        ports.Release(port.value);
        return Err(WorkspaceFailed);
      }
      label Prepared:
      r := CreateSandbox(pid, port.value, workspace, spec, env);
      assert unchanged@Prepared(host);
    }

    /** The last step, with the port already taken. */
    method CreateSandbox(pid: string, port: int, workspace: string, spec: RuntimeSpec, env: seq<string>)
      returns (r: Result<InstanceInfo, ManagerError>)
      requires Sound() && port in ports.used && port !in PortsOf(instances)
      modifies this, ports
      ensures Sound()
      ensures r.Err? ==>
                && r.error == CreateFailed && instances == old(instances)
                && ports.used == old(ports.used) - {port} && launchSpecs == old(launchSpecs)
      ensures up == (if r.Ok? then old(up) - {pid} else old(up)) && (r.Err? ==> names == old(names))
      ensures (if spec.sandbox.name != "" then spec.sandbox.name else DefaultName(pid)) in old(names) ==> r.Err?
      ensures r.Ok? ==> (Valid() <==> old(ports.used.Keys == PortsOf(instances) + {port}) && pid !in old(instances))
      ensures r.Ok? && pid in old(instances) ==> Leaked(old(instances)[pid].port)
      ensures r.Ok? ==>
                && instances == old(instances)[pid := r.value] && r.value.port == port
                && Recorded(r.value, SANDBOX, workspace, spec, env)
                && launchSpecs == old(launchSpecs)[pid := LaunchSpec(spec, env, workspace)]
                && r.value.name == pid
                && r.value.agent == (if spec.sandbox.agent == "" then "shell" else spec.sandbox.agent)
                && r.value.id == (if spec.sandbox.name != "" then spec.sandbox.name else DefaultName(pid))
                && r.value.id !in old(names)
                && names == old(names) + {r.value.id}
    {
      hide PortsOf, DistinctPorts, NamesKnown, RootFromPath, SpecsKnown;
      var name := NameOf(pid, spec);
      var agent := if spec.sandbox.agent == "" then DEFAULT_AGENT else spec.sandbox.agent;
      var created: bool := *;
      if !created || name in names {
        ports.Release(port);
        return Err(CreateFailed);
      }
      var info := InstanceInfo(name, pid, port, Created, SANDBOX, agent, workspace,
                               WithWorkspace(spec, RootFromPath(workspace)), env);
      PortsAfterRecord(instances, pid, info);
      NamesAfter(instances, names, pid, info);
      SpecsAfter(instances, launchSpecs, pid, info, LaunchSpec(spec, env, workspace));
      names := names + {name};
      instances := instances[pid := info];
      launchSpecs := launchSpecs[pid := LaunchSpec(spec, env, workspace)];
      up := up - {pid};
      r := Ok(info);
    }

    /** Stops the sandbox and then removes it.  When only the second command fails, the
        instance stays registered with its sandbox stopped. */
    method RemoveInstance(pid: string) returns (err: Option<ManagerError>)
      requires Sound()
      modifies this, ports
      ensures Sound() && (Valid() <==> old(Valid()))
      ensures err == None ==>
                && pid in old(instances) && instances == old(instances) - {pid}
                && launchSpecs == old(launchSpecs) - {pid} && names == old(names) - {old(instances)[pid].id}
                && ports.used == old(ports.used) - {old(instances)[pid].port}
      ensures err.Some? ==>
                instances == old(instances) && ports.used == old(ports.used) && launchSpecs == old(launchSpecs)
      ensures err.Some? ==> err.value in {NotFound, CommandFailed, RemovalFailed} && names == old(names)
      ensures up == if err == None || err == Some(RemovalFailed) then old(up) - {pid} else old(up)
      ensures err == Some(NotFound) <==> pid !in old(instances)
    {
      hide PortsOf, DistinctPorts, NamesKnown, SpecsKnown;
      if pid !in instances {
        return Some(NotFound);
      }
      var stopped: bool, saysNotRunning: bool := *, *;
      if !stopped && (pid in up || !saysNotRunning) {
        return Some(CommandFailed);
      }
      up := up - {pid};
      var removed: bool := *;
      if !removed {
        return Some(RemovalFailed);
      }
      PortsAfterRelease(ports.used.Keys, instances, pid);
      assert (ports.used - {instances[pid].port}).Keys == ports.used.Keys - {instances[pid].port};
      NamesAfter(instances, names, pid, instances[pid]);
      SpecsRemoved(instances, launchSpecs, pid);
      names := names - {instances[pid].id};
      ports.Release(instances[pid].port);
      instances := instances - {pid};
      launchSpecs := launchSpecs - {pid};
      err := None;
    }

    /** Launches what the recorded image has as its entry point, in the recorded environment,
        inside the instance's sandbox. */
    method StartInstance(pid: string, inspect: string -> ImageConfig)
      returns (err: Option<ManagerError>, run: Option<Execution>)
      requires Sound()
      modifies this`instances, this`up
      ensures Sound() && (Valid() <==> old(Valid()))
      ensures err == None ==>
                pid in old(instances) && instances == old(instances)[pid := old(instances)[pid].(status := Running)]
      ensures up == if err == None then old(up) + {pid} else old(up)
      ensures err.Some? ==> instances == old(instances)
      ensures (err == Some(NotFound) <==> pid !in old(instances)) && (err == Some(NotFound) ==> run == None)
      ensures pid in old(instances) ==>
                var info := old(instances)[pid];
                var config := inspect(info.runtimeSpec.image.name);
                var argv := config.entrypoint + config.cmd;
                && (argv == [] ==> err.Some? && run == None)
                && (err == None ==> run.Some?)
                && (run.Some? ==>
                      && run.value.sandbox == info.id && run.value.env == info.runtimeEnv
                      && run.value.workspace == info.workspace
                      && ShellQuoting.ShellReads(run.value.command) == Some(ShellQuoting.LaunchLine(argv)))
    {
      run := None;
      if pid !in launchSpecs || pid !in instances {
        return Some(NotFound), run;
      }
      var spec := launchSpecs[pid];
      var locked: bool := *;
      if !locked {
        return Some(CommandFailed), run;
      }
      var config := inspect(spec.runtimeSpec.image.name);
      var command := ShellQuoting.BuildLaunchCommand(config.entrypoint, config.cmd);
      if command.Err? {
        return Some(CommandFailed), run;
      }
      run := Some(Execution(instances[pid].id, spec.runtimeEnv, spec.workspace, command.value));
      err := SetStatus(pid, Running);
    }

    method StopInstance(pid: string) returns (err: Option<ManagerError>)
      requires Sound()
      modifies this`instances, this`up
      ensures Sound() && (Valid() <==> old(Valid()))
      ensures err == None ==>
                pid in old(instances) && instances == old(instances)[pid := old(instances)[pid].(status := Stopped)]
      ensures up == if err == None then old(up) - {pid} else old(up)
      ensures err.Some? ==> instances == old(instances)
      ensures err == Some(NotFound) <==> pid !in old(instances)
    {
      err := SetStatus(pid, Stopped);
    }

    /** A CLI command on an instance, and the status it leaves. */
    method SetStatus(pid: string, status: Status) returns (err: Option<ManagerError>)
      requires Sound()
      modifies this`instances, this`up
      ensures Sound() && (Valid() <==> old(Valid()))
      ensures err == None ==>
                pid in old(instances) && instances == old(instances)[pid := old(instances)[pid].(status := status)]
      ensures up == if err.Some? then old(up) else if status == Running then old(up) + {pid} else old(up) - {pid}
      ensures err.Some? ==> instances == old(instances)
      ensures err == Some(NotFound) <==> pid !in old(instances)
    {
      if pid !in instances {
        return Some(NotFound);
      }
      var done: bool := *;
      if !done {
        return Some(CommandFailed);
      }
      PortsAfterStatus(instances, pid, instances[pid].(status := status));
      NamesAfter(instances, names, pid, instances[pid].(status := status));
      SpecsAfter(instances, launchSpecs, pid, instances[pid].(status := status), launchSpecs[pid]);
      instances := instances[pid := instances[pid].(status := status)];
      up := if status == Running then up + {pid} else up - {pid};
      err := None;
    }
  }

  // ----- runs -----

  datatype Op =
    | Create(pid: string, spec: RuntimeSpec, env: seq<string>, available: int -> bool)
    | Start(pid: string, inspect: string -> ImageConfig)
    | Stop(pid: string)
    | Remove(pid: string)

  /** The same process id created twice under two sandbox names: the second success loses
      the port of the first instance. */
  method LeakExample(sm: SandboxManager, host: Host, cwd: string, pid: string, spec: RuntimeSpec, env: seq<string>,
                     available: int -> bool)
    returns (first: Result<InstanceInfo, ManagerError>, second: Result<InstanceInfo, ManagerError>)
    requires sm.Valid() && pid !in sm.instances
    modifies sm, sm.ports, host
    ensures first.Ok? && second.Ok? ==> sm.Leaked(first.value.port) && !sm.Valid()
    ensures first.Ok? && second.Ok? ==>
              first.value.id == "a" && second.value.id == "b" && first.value.port != second.value.port
  {
    var named := spec.(sandbox := spec.sandbox.(name := "a"));
    first := sm.CreateInstance(host, cwd, pid, named, env, available);
    second := sm.CreateInstance(host, cwd, pid, named.(sandbox := named.sandbox.(name := "b")), env, available);
  }

  /** Port conservation over every run in which a registered instance is not created
      again, whatever calls fail. */
  method RunOperations(sm: SandboxManager, host: Host, cwd: string, ops: seq<Op>)
    requires sm.Valid()
    modifies sm, sm.ports, host
    ensures sm.ports.used.Keys == PortsOf(sm.instances) && DistinctPorts(sm.instances)
    ensures SpecsKnown(sm.instances, sm.launchSpecs)
  {
    for i := 0 to |ops|
      invariant sm.Valid()
    {
      match ops[i] {
        case Create(pid, spec, env, available) =>
          if pid !in sm.instances {
            var created := sm.CreateInstance(host, cwd, pid, spec, env, available);
          }
        case Start(pid, inspect) =>
          var started, run := sm.StartInstance(pid, inspect);
        case Stop(pid) =>
          var stopped := sm.StopInstance(pid);
        case Remove(pid) =>
          var removed := sm.RemoveInstance(pid);
      }
    }
  }
}
