/**
 The cluster as the provisioner sees it, and the client that creates and deletes the pod
 and the service of a stack. Any call may fail; a failed call changes nothing.
 */
module Kubernetes {
  import opened Types
  import opened Text

  datatype Ref = Ref(namespace: string, name: string)

  datatype Pod = Pod(stackID: string, nodeName: string, phase: string, lost: bool, createdAt: Option<Time>)

  datatype Service = Service(stackID: string, ports: seq<PortMapping>)

  datatype Provisioned = Provisioned(podID: string, serviceName: string, nodeID: string, status: string)

  /**
   Decides which calls fail. `quiet` when none does; `compensates` when the deletes and
   releases that undo earlier work never fail.
   */
  class Faults {
    const quiet: bool
    const compensates: bool

    constructor (quiet: bool, compensates: bool)
      ensures this.quiet == quiet && this.compensates == compensates
    {
      this.quiet, this.compensates := quiet, compensates;
    }

    predicate Undoes() {
      quiet || compensates
    }

    method Next(undo: bool) returns (err: Option<Error>)
      ensures quiet || (undo && Undoes()) ==> err == None
      ensures err.Some? ==> err.value.Failure? || err.value.PortAllocated?
    {
      if quiet || (undo && compensates) {
        return None;
      }
      var fails: bool, clash: bool := *, *;
      return if !fails then None else if clash then Some(PortAllocated) else Some(Failure("call failed"));
    }
  }

  function PhaseStatus(phase: string): string {
    if phase == "Running" then STATUS_RUNNING
    else if phase == "Failed" then STATUS_FAILED
    else if phase == "Succeeded" then STATUS_STOPPED
    else STATUS_CREATING
  }

  /** The status a pod shows, and its node. */
  function PodState(pod: Pod): (string, string) {
    (if pod.lost then STATUS_NODE_DELETED else PhaseStatus(pod.phase), pod.nodeName)
  }

  function ServiceName(stackID: string): string {
    "svc-" + stackID
  }

  /** Any protocol other than UDP is exposed as TCP. */
  function ServicePorts(ports: seq<PortMapping>): seq<PortMapping> {
    seq(|ports|, i requires 0 <= i < |ports| =>
      ports[i].(protocol := if EqualFold(ports[i].protocol, "UDP") then "UDP" else "TCP"))
  }

  predicate UsesPort(svc: Service, p: int) {
    exists i :: 0 <= i < |svc.ports| && svc.ports[i].nodePort == p
  }

  /** Some service already uses one of the node ports of `svc`. */
  predicate Clashes(services: map<Ref, Service>, svc: Service) {
    exists r, i :: r in services && 0 <= i < |svc.ports| && UsesPort(services[r], svc.ports[i].nodePort)
  }

  /** The pod object a request creates: an unnamed one takes the stack ID. */
  function PodRef(namespace: string, stackID: string, podName: string): Ref {
    Ref(namespace, if podName == "" then stackID else podName)
  }

  /** `after` is `before` with the one pod a request for `stackID` got, bound to a node. */
  ghost predicate AddsPod(before: map<Ref, Pod>, after: map<Ref, Pod>, ref: Ref, stackID: string, made: Provisioned) {
    && ref !in before && ref in after && after == before[ref := after[ref]]
    && after[ref].stackID == stackID
    && after[ref].nodeName == made.nodeID
    && PhaseStatus(after[ref].phase) == made.status
  }

  /** The listing shows the named pods of the namespace as they are. */
  ghost predicate Listed(namespace: string, listing: map<string, Pod>, pods: map<Ref, Pod>) {
    && (forall name :: name in listing <==> name != "" && Ref(namespace, name) in pods)
    && (forall name :: name in listing ==> listing[name] == pods[Ref(namespace, name)])
  }

  class KubernetesClient {
    var pods: map<Ref, Pod>
    var services: map<Ref, Service>
    const nodes: map<string, Option<string>>   // each node with its external address; nobody here adds or removes one
    const faults: Faults

    constructor (faults: Faults, nodes: map<string, Option<string>>)
      ensures this.faults == faults && this.nodes == nodes && pods == map[] && services == map[]
    {
      this.faults, this.nodes := faults, nodes;
      pods, services := map[], map[];
    }

    // ---------- API server ----------

    method CreatePodObject(ref: Ref, pod: Pod) returns (err: Option<Error>)
      modifies this`pods
      ensures err.None? ==> ref !in old(pods) && pods == old(pods)[ref := pod]
      ensures err.Some? ==> pods == old(pods)
      ensures faults.quiet ==> (err.None? <==> ref !in old(pods))
    {
      err := faults.Next(false);
      if err.None? {
        if ref in pods {
          return Some(AlreadyExists);
        }
        pods := pods[ref := pod];
      }
    }

    /** The API server refuses a node port that some service already uses. */
    method CreateServiceObject(ref: Ref, svc: Service) returns (err: Option<Error>)
      modifies this`services
      ensures err.None? ==> ref !in old(services) && services == old(services)[ref := svc]
      ensures err.Some? ==> services == old(services)
      ensures err.None? ==> !Clashes(old(services), svc)
      ensures faults.quiet && ref !in old(services) ==> (err.None? <==> !Clashes(old(services), svc))
    {
      err := faults.Next(false);
      if err.None? {
        if ref in services {
          return Some(AlreadyExists);
        }
        if Clashes(services, svc) {
          return Some(PortAllocated);
        }
        services := services[ref := svc];
      }
    }

    method DeleteServiceObject(ref: Ref, undo: bool) returns (err: Option<Error>)
      modifies this`services
      ensures services == old(services) || services == old(services) - {ref}
      ensures err.None? || err == Some(NotFound) ==> services == old(services) - {ref}
      ensures faults.quiet || (undo && faults.Undoes()) ==> err.None? || err == Some(NotFound)
    {
      err := faults.Next(undo);
      if err.None? {
        if ref !in services {
          return Some(NotFound);
        }
        services := services - {ref};
      }
    }

    method DeletePodObject(ref: Ref, undo: bool) returns (err: Option<Error>)
      modifies this`pods
      ensures pods == old(pods) || pods == old(pods) - {ref}
      ensures err.None? || err == Some(NotFound) ==> pods == old(pods) - {ref}
      ensures faults.quiet || (undo && faults.Undoes()) ==> err.None? || err == Some(NotFound)
    {
      err := faults.Next(undo);
      if err.None? {
        if ref !in pods {
          return Some(NotFound);
        }
        pods := pods - {ref};
      }
    }

    method GetPod(ref: Ref) returns (r: Result<Pod, Error>)
      ensures r.Ok? ==> ref in pods && r.value == pods[ref]
      ensures r == Err(NotFound) ==> ref !in pods
      ensures faults.quiet ==> (r.Ok? <==> ref in pods) && (r.Err? ==> r.error == NotFound)
    {
      var err := faults.Next(false);
      if err.Some? {
        return Err(err.value);
      }
      return if ref in pods then Ok(pods[ref]) else Err(NotFound);
    }

    /** Waits for the scheduler: it binds the pod to a node, or the wait ends in an error. */
    method WaitUntilSchedulable(ref: Ref) returns (err: Option<Error>)
      modifies this`pods
      ensures err.None? ==> ref in old(pods) && exists node :: node != "" && pods == old(pods)[ref := old(pods)[ref].(nodeName := node)]
      ensures err.Some? ==> pods == old(pods)
    {
      if ref !in pods {
        return Some(NotFound);
      }
      err := faults.Next(false);
      if err.None? {
        var saturated: bool := *;
        if saturated {
          return Some(ClusterSaturated);
        }
        var node: string := *;
        if node == "" {
          return Some(ClusterSaturated);
        }
        pods := pods[ref := pods[ref].(nodeName := node)];
      }
    }

    // ---------- Client ----------

    method GetPodWithRetry(ref: Ref, attempts: int) returns (r: Result<Pod, Error>, calls: nat)
      ensures r.Ok? ==> ref in pods && r.value == pods[ref]
      ensures 1 <= calls <= (if attempts < 1 then 1 else attempts)
      ensures faults.quiet ==> (r.Ok? <==> ref in pods)
      ensures r == Err(NotFound) ==> calls == (if attempts < 1 then 1 else attempts) && ref !in pods
    {
      var limit := if attempts < 1 then 1 else attempts;
      calls := 0;
      r := Err(NotFound);
      while calls < limit
        invariant 0 <= calls <= limit
        invariant calls > 0 ==> r == Err(NotFound) && ref !in pods
      {
        r := GetPod(ref);
        calls := calls + 1;
        if r.Ok? || r.error != NotFound {
          return;
        }
      }
    }

    /**
     Creates the pod, then the service, then waits for a node. Each error exit undoes what
     was created before it, the service first.
     */
    method CreatePodAndService(namespace: string, stackID: string, podName: string, ports: seq<PortMapping>, now: Time)
      returns (r: Result<Provisioned, Error>)
      modifies this`pods, this`services
      ensures r.Err? && faults.Undoes() ==> pods == old(pods) && services == old(services)
      ensures r.Ok? ==>
        && r.value.podID == PodRef(namespace, stackID, podName).name
        && r.value.serviceName == ServiceName(stackID)
        && AddsPod(old(pods), pods, PodRef(namespace, stackID, podName), stackID, r.value)
      ensures r.Ok? ==>
        && Ref(namespace, ServiceName(stackID)) !in old(services)
        && !Clashes(old(services), Service(stackID, ServicePorts(ports)))
        && services == old(services)[Ref(namespace, ServiceName(stackID)) := Service(stackID, ServicePorts(ports))]
      ensures pods - {PodRef(namespace, stackID, podName)} == old(pods) - {PodRef(namespace, stackID, podName)}
      ensures services - {Ref(namespace, ServiceName(stackID))} == old(services) - {Ref(namespace, ServiceName(stackID))}
    {
      var pod, svc := PodRef(namespace, stackID, podName), Ref(namespace, ServiceName(stackID));
      var err := CreatePodObject(pod, Pod(stackID, "", "Pending", false, Some(now)));
      if err.Some? {
        return Err(err.value);
      }
      assert pods - {pod} == old(pods);
      err := CreateServiceObject(svc, Service(stackID, ServicePorts(ports)));
      if err.Some? {
        var _ := DeletePodObject(pod, true);
        return Err(err.value);
      }
      assert services - {svc} == old(services);
      err := WaitUntilSchedulable(pod);
      assert pods - {pod} == old(pods);
      if err.Some? {
        var _ := DeleteServiceObject(svc, true);
        var _ := DeletePodObject(pod, true);
        return Err(err.value);
      }
      var got, _ := GetPodWithRetry(pod, 3);
      if got.Err? {
        var _ := DeleteServiceObject(svc, true);
        var _ := DeletePodObject(pod, true);
        return Err(got.error);
      }
      return Ok(Provisioned(pod.name, ServiceName(stackID), got.value.nodeName, PhaseStatus(got.value.phase)));
    }

    /** Deletes the named service, then the pod. Absence is no error; a failing service delete keeps the pod. */
    method DeletePodAndService(namespace: string, podID: string, serviceName: string, undo: bool) returns (err: Option<Error>)
      modifies this`pods, this`services
      ensures err.None? ==> pods == old(pods) - {Ref(namespace, podID)}
      ensures err.None? ==> services == if serviceName != "" then old(services) - {Ref(namespace, serviceName)} else old(services)
      ensures faults.quiet || (undo && faults.Undoes()) ==> err.None?
      ensures pods == old(pods) || pods == old(pods) - {Ref(namespace, podID)}
      ensures services == old(services) || (serviceName != "" && services == old(services) - {Ref(namespace, serviceName)})
      ensures pods != old(pods) && serviceName != "" ==> services == old(services) - {Ref(namespace, serviceName)}
    {
      if serviceName != "" {
        err := DeleteServiceObject(Ref(namespace, serviceName), undo);
        if err.Some? && err.value != NotFound {
          return;
        }
      }
      err := DeletePodObject(Ref(namespace, podID), undo);
      if err == Some(NotFound) {
        err := None;
      }
    }

    method GetPodStatus(namespace: string, podID: string) returns (r: Result<(string, string), Error>)
      ensures r.Ok? ==> Ref(namespace, podID) in pods && r.value == PodState(pods[Ref(namespace, podID)])
      ensures r == Err(NotFound) ==> Ref(namespace, podID) !in pods
      ensures faults.quiet ==> (r.Ok? <==> Ref(namespace, podID) in pods) && (r.Err? ==> r.error == NotFound)
    {
      var got := GetPod(Ref(namespace, podID));
      if got.Err? {
        return Err(got.error);
      }
      if got.value.lost {
        return Ok((STATUS_NODE_DELETED, got.value.nodeName));
      }
      return Ok((PhaseStatus(got.value.phase), got.value.nodeName));
    }

    method NodeExists(nodeID: string) returns (r: Result<bool, Error>)
      ensures r.Ok? ==> (r.value <==> nodeID != "" && nodeID in nodes)
      ensures faults.quiet ==> r.Ok?
    {
      if nodeID == "" {
        return Ok(false);
      }
      var err := faults.Next(false);
      return if err.Some? then Err(err.value) else Ok(nodeID in nodes);
    }

    method GetNodePublicIP(nodeID: string) returns (r: Result<Option<string>, Error>)
      ensures r.Ok? ==> r.value == if nodeID != "" && nodeID in nodes && nodes[nodeID] != Some("") then nodes[nodeID] else None
      ensures faults.quiet ==> r.Ok?
    {
      if nodeID == "" {
        return Ok(None);
      }
      var err := faults.Next(false);
      if err.Some? {
        return Err(err.value);
      }
      return Ok(if nodeID in nodes && nodes[nodeID] != Some("") then nodes[nodeID] else None);
    }

    /** The names in one namespace; an object without a name is skipped. */
    method ListPods(namespace: string) returns (r: Result<set<string>, Error>)
      ensures r.Ok? ==> forall name :: name in r.value <==> name != "" && Ref(namespace, name) in pods
      ensures faults.quiet ==> r.Ok?
    {
      var err := faults.Next(false);
      if err.Some? {
        return Err(err.value);
      }
      return Ok(set ref | ref in pods && ref.namespace == namespace && ref.name != "" :: ref.name);
    }

    method ListPodsWithCreation(namespace: string) returns (r: Result<map<string, Pod>, Error>)
      ensures r.Ok? ==> Listed(namespace, r.value, pods)
      ensures faults.quiet ==> r.Ok?
    {
      var err := faults.Next(false);
      if err.Some? {
        return Err(err.value);
      }
      var names := set ref | ref in pods && ref.namespace == namespace && ref.name != "" :: ref.name;
      return Ok(map name | name in names :: pods[Ref(namespace, name)]);
    }

    method ListServices(namespace: string) returns (r: Result<set<string>, Error>)
      ensures r.Ok? ==> forall name :: name in r.value <==> name != "" && Ref(namespace, name) in services
      ensures faults.quiet ==> r.Ok?
    {
      var err := faults.Next(false);
      if err.Some? {
        return Err(err.value);
      }
      return Ok(set ref | ref in services && ref.namespace == namespace && ref.name != "" :: ref.name);
    }
  }
}
