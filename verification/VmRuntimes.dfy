/** The two runtime managers as one VM uses them, with the state of the agents that run
    in its instances. */
module VmRuntimes {
  import opened Wrappers
  import opened RuntimeSchema
  import opened HostFiles
  import opened WorkspacePaths
  import opened WorkspaceRestore
  import opened DockerManager
  import opened SandboxManager

  datatype Kind = DockerKind | SandboxKind

  datatype System = Linux | DarwinOrWindows | OtherSystem

  function BackendName(k: Kind): string { if k == DockerKind then DOCKER else SANDBOX }

  /** The agent's process, and what it would answer to a checkpoint request; None while
      that is not known. */
  datatype Agent = Down | Up(state: Option<string>)

  datatype Live = Live(info: InstanceInfo, agent: Agent)

  /** How a removal can end.  Halfway: a sandbox was stopped but is still there. */
  datatype Removal = Removed | NotRemoved | Halfway

  /** What each manager holds for the VM. */
  datatype Holding = Holding(docker: Option<Live>, sandbox: Option<Live>) {
    function Get(k: Kind): Option<Live> { if k == DockerKind then docker else sandbox }

    function Put(k: Kind, live: Option<Live>): Holding {
      if k == DockerKind then Holding(live, sandbox) else Holding(docker, live)
    }
  }

  const NOTHING := Holding(None, None)

  lemma OthersAfterPut(instances: Instances, up: set<string>, pid: string, info: InstanceInfo)
    ensures instances[pid := info] - {pid} == instances - {pid}
    ensures (instances - {pid}) - {pid} == instances - {pid}
    ensures up + {pid} - {pid} == up - {pid} && up - {pid} - {pid} == up - {pid}
  {
  }

  class Runtimes {
    const pid: string
    const cwd: string
    const docker: DockerManager
    const sandbox: SandboxManager
    const system: System
    /** Whether the client of the Docker daemon can be set up. */
    const dockerWorks: bool
    var dockerAgent: Option<string>
    var sandboxAgent: Option<string>

    constructor (pid: string, cwd: string, docker: DockerManager, sandbox: SandboxManager, system: System,
                 dockerWorks: bool)
      requires docker.Valid() && sandbox.Valid() && docker.ports != sandbox.ports
      requires pid !in docker.instances && pid !in sandbox.instances
      ensures Valid() && Empty()
      ensures this.pid == pid && this.cwd == cwd && this.docker == docker && this.sandbox == sandbox
      ensures this.system == system && this.dockerWorks == dockerWorks
    {
      this.pid, this.cwd, this.docker, this.sandbox := pid, cwd, docker, sandbox;
      this.system, this.dockerWorks := system, dockerWorks;
      dockerAgent, sandboxAgent := None, None;
    }

    ghost function Repr(): set<object> { {this, docker, docker.ports, sandbox, sandbox.ports} }

    ghost predicate Valid()
      reads Repr()
    {
      docker.Valid() && sandbox.Sound() && docker.ports != sandbox.ports
    }

    /** No manager holds an instance of the VM, and the ports balance. */
    ghost predicate Empty()
      reads Repr()
    {
      Held() == NOTHING && sandbox.Valid()
    }

    /** Manager `k`, and only it, holds an instance of the VM, and the ports balance. */
    ghost predicate Only(k: Kind)
      reads Repr()
    {
      Held().Get(k).Some? && Held() == NOTHING.Put(k, Held().Get(k)) && sandbox.Valid()
    }

    /** What the managers hold for this VM. */
    ghost function Held(): Holding
      reads this, docker, sandbox
    {
      Holding(
        if pid in docker.instances then
          Some(Live(docker.instances[pid], if pid in docker.up then Up(dockerAgent) else Down))
        else None,
        if pid in sandbox.instances then
          Some(Live(sandbox.instances[pid], if pid in sandbox.up then Up(sandboxAgent) else Down))
        else None)
    }

    /** What the managers hold for other VMs. */
    ghost function Others(): (Instances, set<string>, Instances, set<string>)
      reads docker, sandbox
    {
      (docker.instances - {pid}, docker.up - {pid}, sandbox.instances - {pid}, sandbox.up - {pid})
    }

    /** The daemon knows another container, or the CLI another sandbox, under the name the
        manager would ask for. */
    predicate Refuses(k: Kind, spec: RuntimeSpec)
      reads docker, sandbox
    {
      if k == DockerKind then NAME_PREFIX + pid in docker.containers else NameOf(pid, spec) in sandbox.names
    }

    /** Docker never makes a second container of the VM; the sandbox CLI makes a second
        sandbox when it is to have another name. */
    lemma HolderRefuses(k: Kind, spec: RuntimeSpec)
      requires Valid() && Held().Get(k).Some?
      ensures k == DockerKind || Held().sandbox.value.info.id == NameOf(pid, spec) ==> Refuses(k, spec)
    {
    }

    method SetAgent(k: Kind, state: Option<string>)
      modifies this
      ensures Held() == match old(Held()).Get(k)
                           case None => old(Held())
                           case Some(live) =>
                             old(Held()).Put(k, Some(live.(agent := if live.agent.Up? then Up(state) else Down)))
    {
      if k == DockerKind {
        dockerAgent := state;
      } else {
        sandboxAgent := state;
      }
    }

    /** `GetRuntimeManager` */
    function GetManager(backend: string): Option<Kind> {
      var name := if backend == "" then (if system == DarwinOrWindows then SANDBOX else DOCKER) else backend;
      if name == DOCKER then (if dockerWorks then Some(DockerKind) else None)
      else if name == SANDBOX then (if system == Linux then None else Some(SandboxKind))
      else None
    }

    /** Which backends each manager serves; every other name has none. */
    lemma ManagerExact(backend: string)
      ensures GetManager(backend) == Some(DockerKind) <==>
                dockerWorks && (backend == "docker" || (backend == "" && system != DarwinOrWindows))
      ensures GetManager(backend) == Some(SandboxKind) <==>
                || (backend == "sandbox" && system != Linux) || (backend == "" && system == DarwinOrWindows)
      ensures forall k | GetManager(backend) == Some(k) && backend != "" :: backend == BackendName(k)
    {
    }

    method Create(host: Host, k: Kind, spec: RuntimeSpec, env: seq<string>)
      returns (r: Result<InstanceInfo, ManagerError>)
      requires Valid()
      modifies Repr(), host
      ensures Valid() && Others() == old(Others())
      ensures old(Refuses(k, spec)) ==> r.Err?
      ensures r.Err? ==> Held() == old(Held()) && (sandbox.Valid() <==> old(sandbox.Valid()))
      ensures r.Ok? ==>
                && Held() == old(Held()).Put(k, Some(Live(r.value, Down)))
                && (sandbox.Valid() <==> old(sandbox.Valid()) && old(Held()).Get(k) == None)
                && Recorded(r.value, BackendName(k), ResolveWorkspace(cwd, pid, spec.sandbox.workspace), spec, env)
                && ResolveWorkspace(cwd, pid, spec.sandbox.workspace) in host.dirs
      ensures WorkspaceTouched(old(host.dirs), host.dirs, ResolveWorkspace(cwd, pid, spec.sandbox.workspace))
      ensures old(host.history) <= host.history
      ensures TouchedSince(old(host.dirs), host.history, |old(host.history)|,
                           ResolveWorkspace(cwd, pid, spec.sandbox.workspace))
    {
      hide WorkspaceTouched, TouchedSince, ResolveWorkspace, RootFromPath, NamesKnown, PortsOf, DistinctPorts,
        SpecsKnown;
      var free: set<int> := *;
      if k == DockerKind {
        r := docker.CreateInstance(host, cwd, pid, spec, env, port => port in free);
        if r.Ok? {
          OthersAfterPut(old(docker.instances), docker.up, pid, r.value);
        }
      } else {
        r := sandbox.CreateInstance(host, cwd, pid, spec, env, port => port in free);
        if r.Ok? {
          OthersAfterPut(old(sandbox.instances), old(sandbox.up), pid, r.value);
        }
      }
    }

    method Remove(k: Kind) returns (r: Removal)
      requires Valid()
      modifies Repr()
      ensures Valid() && Others() == old(Others())
      ensures r == Removed ==> old(Held()).Get(k).Some? && Held() == old(Held()).Put(k, None)
      ensures r == NotRemoved ==> Held() == old(Held())
      ensures r == Halfway ==>
                && k == SandboxKind && old(Held()).sandbox.Some?
                && Held() == old(Held()).Put(k, Some(old(Held()).sandbox.value.(agent := Down)))
      ensures sandbox.Valid() <==> old(sandbox.Valid())
    {
      hide SpecsKnown, NamesKnown, PortsOf, DistinctPorts;
      var err;
      if k == DockerKind {
        err := docker.RemoveInstance(pid);
        if err == None {
          OthersAfterPut(old(docker.instances), old(docker.up), pid, old(docker.instances)[pid]);
        }
      } else {
        err := sandbox.RemoveInstance(pid);
        if err != Some(NotFound) {
          OthersAfterPut(old(sandbox.instances), old(sandbox.up), pid, old(sandbox.instances)[pid]);
        }
      }
      r := if err == None then Removed
           else if k == SandboxKind && err == Some(RemovalFailed) then Halfway
           else NotRemoved;
    }

    method Start(k: Kind) returns (ok: bool)
      requires Valid()
      modifies Repr()
      ensures Valid() && Others() == old(Others())
      ensures ok ==>
                && old(Held()).Get(k).Some?
                && var live := old(Held()).Get(k).value;
                   Held() == old(Held()).Put(k, Some(Live(live.info.(status := Running), Up(None))))
      ensures !ok ==> Held() == old(Held())
      ensures sandbox.Valid() <==> old(sandbox.Valid())
    {
      hide SpecsKnown, NamesKnown, PortsOf, DistinctPorts;
      var err;
      if k == DockerKind {
        err := docker.StartInstance(pid);
        if err == None {
          OthersAfterPut(old(docker.instances), old(docker.up), pid, old(docker.instances)[pid].(status := Running));
        }
      } else {
        var config: ImageConfig := *;
        var run;
        err, run := sandbox.StartInstance(pid, image => config);
        if err == None {
          OthersAfterPut(old(sandbox.instances), old(sandbox.up), pid, old(sandbox.instances)[pid].(status := Running));
        }
      }
      ok := err == None;
      if ok {
        SetAgent(k, None);
      }
    }

    /** The agent's `/vmm/checkpoint`; it answers with its state and keeps it.  An agent
        that is down does not answer. */
    method AgentCheckpoint(k: Kind) returns (r: Option<string>)
      requires Valid() && Held().Get(k).Some?
      modifies this
      ensures Valid() && Others() == old(Others())
      ensures r.None? ==> Held() == old(Held())
      ensures r.Some? ==>
                var live := old(Held()).Get(k).value;
                && Held() == old(Held()).Put(k, Some(live.(agent := Up(r))))
                && live.agent.Up? && (live.agent.state.Some? ==> r == live.agent.state)
    {
      var answers: bool := *;
      var up := if k == DockerKind then pid in docker.up else pid in sandbox.up;
      if !answers || !up {
        return None;
      }
      var known := if k == DockerKind then dockerAgent else sandboxAgent;
      var state: string := *;
      r := if known.Some? then known else Some(state);
      SetAgent(k, r);
    }

    /** The agent's `/vmm/restore`, or `/vmm/spawn` with a state of the agent's own.  To the
        sandbox backend the request goes through a file below the workspace's `.tmp`. */
    method AgentLoad(host: Host, k: Kind, workspace: string, state: string) returns (ok: bool)
      requires Valid() && Held().Get(k).Some? && Held().Get(k).value.info.workspace == workspace
      modifies this, host
      ensures Valid() && Others() == old(Others())
      ensures var live := old(Held()).Get(k).value;
              var agent := if ok then Up(Some(state)) else if live.agent.Up? then Up(None) else Down;
              Held() == old(Held()).Put(k, Some(live.(agent := agent)))
      ensures ok ==> old(Held()).Get(k).value.agent.Up?
      ensures k == DockerKind ==> host.dirs == old(host.dirs)
      ensures ok && k == SandboxKind ==> workspace in host.dirs && [".tmp"] in host.dirs[workspace]
      ensures WorkspaceTouched(old(host.dirs), host.dirs, workspace)
      ensures old(host.history) <= host.history
      ensures TouchedSince(old(host.dirs), host.history, |old(host.history)|, workspace)
    {
      hide WorkspaceTouched;
      ok := true;
      if k == SandboxKind {
        ok := MakeRequestDir(host, workspace);
      } else {
        Untouched(host.dirs, workspace);
      }
      var answers: bool := *;
      var up := if k == DockerKind then pid in docker.up else pid in sandbox.up;
      ok := ok && answers && up;
      SetAgent(k, if ok then Some(state) else None);
    }
  }

  method MakeRequestDir(host: Host, workspace: string) returns (ok: bool)
    modifies host
    ensures ok ==> workspace in host.dirs && [".tmp"] in host.dirs[workspace]
    ensures WorkspaceTouched(old(host.dirs), host.dirs, workspace)
    ensures old(host.history) <= host.history
    ensures TouchedSince(old(host.dirs), host.history, |old(host.history)|, workspace)
  {
    ghost var dirs := host.dirs;
    var tmp: seq<seq<string>> := [[".tmp"]];
    assert [".tmp"] in LAYOUT by { assert LAYOUT[4] == [".tmp"]; }
    ok := EnsureDirs(host, workspace, tmp);
    TouchedBy(dirs, host.dirs, host.dirs, workspace);
    assert host.history[..|host.history|] == host.history;
    StepsTouched(dirs, host.dirs, host.history, |old(host.history)|, |host.history|, workspace);
  }
}
