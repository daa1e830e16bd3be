/** The records a runtime manager keeps. */
module RuntimeSchema {

  const DOCKER := "docker"
  const SANDBOX := "sandbox"

  datatype ImageInfo = ImageInfo(name: string, sha: string, source: string, archiveFormat: string)

  datatype SandboxSpec = SandboxSpec(agent: string, workspace: string, network: string, name: string)

  datatype RuntimeSpec = RuntimeSpec(backend: string, image: ImageInfo, sandbox: SandboxSpec)

  datatype Status = Created | Running | Stopped

  datatype InstanceInfo = InstanceInfo(
    id: string, name: string, port: int, status: Status, backend: string, agent: string,
    workspace: string, runtimeSpec: RuntimeSpec, runtimeEnv: seq<string>)

  type Instances = map<string, InstanceInfo>

  function WithWorkspace(spec: RuntimeSpec, root: string): RuntimeSpec {
    spec.(sandbox := spec.sandbox.(workspace := root))
  }

  /** The same instance, perhaps in another status. */
  predicate SameLaunch(a: InstanceInfo, b: InstanceInfo) { a == b.(status := a.status) }

  function PortsOf(instances: Instances): set<int> { set pid | pid in instances :: instances[pid].port }

  predicate DistinctPorts(instances: Instances) {
    forall a, b | a in instances && b in instances && a != b :: instances[a].port != instances[b].port
  }

  lemma PortsAfterAdd(instances: Instances, pid: string, info: InstanceInfo)
    requires pid !in instances
    ensures PortsOf(instances[pid := info]) == PortsOf(instances) + {info.port}
    ensures DistinctPorts(instances) && info.port !in PortsOf(instances) ==> DistinctPorts(instances[pid := info])
  {
    var more := instances[pid := info];
    assert more[pid] == info;
    forall p | p in PortsOf(instances) ensures p in PortsOf(more) {
      var q :| q in instances && instances[q].port == p;
      assert more[q] == instances[q];
    }
  }

  lemma PortsAfterRemove(instances: Instances, pid: string)
    requires pid in instances && DistinctPorts(instances)
    ensures PortsOf(instances - {pid}) == PortsOf(instances) - {instances[pid].port}
    ensures DistinctPorts(instances - {pid})
  {
    var fewer := instances - {pid};
    forall p | p in PortsOf(instances) - {instances[pid].port} ensures p in PortsOf(fewer) {
      var q :| q in instances && instances[q].port == p;
      assert q in fewer && fewer[q] == instances[q];
    }
  }

  lemma PortsAfterStatus(instances: Instances, pid: string, info: InstanceInfo)
    requires pid in instances && info.port == instances[pid].port
    ensures PortsOf(instances[pid := info]) == PortsOf(instances)
    ensures DistinctPorts(instances) ==> DistinctPorts(instances[pid := info])
  {
    var next := instances[pid := info];
    forall p | p in PortsOf(instances) ensures p in PortsOf(next) {
      var q :| q in instances && instances[q].port == p;
      assert q in next && next[q].port == p;
    }
  }

  /** Overwriting a registered instance forgets its port: the ports on record shrink. */
  lemma PortsAfterOverwrite(instances: Instances, pid: string, info: InstanceInfo)
    requires pid in instances && DistinctPorts(instances) && info.port !in PortsOf(instances)
    ensures PortsOf(instances[pid := info]) == PortsOf(instances) - {instances[pid].port} + {info.port}
  {
    PortsAfterRemove(instances, pid);
    PortsAfterAdd(instances - {pid}, pid, info);
    assert (instances - {pid})[pid := info] == instances[pid := info];
  }
}
