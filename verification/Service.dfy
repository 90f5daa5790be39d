/** The stack service: provisioning, status refresh, deletion and cleanup over a repository and a cluster. */
module StackService {
  import opened Types
  import opened Repository
  import opened Kubernetes
  import opened Worlds
  import opened Convergence
  import opened Batch
  import opened Names

  /** The counters a cleanup cycle logs. `listed` is false when the first listing failed. */
  datatype Report = Report(
    listed: bool, scanned: nat,
    expired: nat, missing: nat, orphans: nat,
    cleaned: nat, failures: nat, resourceScanErrors: nat, orphanScanErrors: nat)

  datatype Config = Config(namespace: string, stackTTL: Time, nodePortMin: int, nodePortMax: int)

  /** The ports of the configured range that nobody has reserved or owns. */
  function FreePorts(cfg: Config, ports: map<int, string>): set<int> {
    set p | cfg.nodePortMin <= p <= cfg.nodePortMax && p !in ports
  }

  function PortsIn(mappings: seq<PortMapping>): set<int> {
    set i | 0 <= i < |mappings| :: mappings[i].nodePort
  }

  /** One mapping per target, in order, each with a port of its own that was free before. */
  ghost predicate Maps(cfg: Config, before: map<int, string>, targets: seq<PortSpec>, mappings: seq<PortMapping>) {
    && |mappings| == |targets|
    && (forall i :: 0 <= i < |targets| ==>
          && mappings[i].containerPort == targets[i].containerPort
          && mappings[i].protocol == targets[i].protocol
          && mappings[i].nodePort in FreePorts(cfg, before))
    && (forall i, j :: 0 <= i < j < |mappings| ==> mappings[i].nodePort != mappings[j].nodePort)
  }

  /** `after` is `before` with some of the free ports still reserved. */
  ghost predicate Leaks(before: map<int, string>, after: map<int, string>) {
    && (forall p :: p in before ==> p in after && after[p] == before[p])
    && (forall p :: p in after && p !in before ==> after[p] == "")
  }

  /** Nothing but the stack `id`, its ports, its pod and its service may be gone, and only its record changed. */
  ghost predicate Touches(w: World, w': World, id: string) {
    && w'.stacks.Keys <= w.stacks.Keys && w'.stacks - {id} == w.stacks - {id}
    && (id in w'.stacks ==> SameStack(w.stacks[id], w'.stacks[id]))
    && w'.ports == (if id in w.stacks && id !in w'.stacks then w.ports - PortSet(w.stacks[id]) else w.ports)
    && (w'.pods == w.pods || (id in w.stacks && w'.pods == w.pods - {PodOf(w.stacks[id])}))
    && (w'.services == w.services || (id in w.stacks && w'.services == w.services - {ServiceOf(w.stacks[id])}))
  }

  /**
   What a refresh of `id` may come to, whichever calls fail: only an unviable stack loses its
   record, its pod or its service, and the answer tells. Without faults it is exact.
   */
  ghost predicate RefreshOutcome(quiet: bool, w: World, w': World, nodes: Nodes, id: string, err: Option<Error>) {
    && Touches(w, w', id)
    && (id in w.stacks && (id !in w'.stacks || w'.pods != w.pods || w'.services != w.services) ==>
          err == Some(NotFound) && !Viable(w, nodes, w.stacks[id]))
    && (err.None? ==> id in w'.stacks && Viable(w, nodes, w.stacks[id]))
    && (quiet && id !in w.stacks ==> err == Some(NotFound) && w' == w)
    && (quiet && id in w.stacks && w.stacks[id].serviceName != "" ==>
          && AfterRefresh(w, w', nodes, id)
          && err == if Viable(w, nodes, w.stacks[id]) then None else Some(NotFound))
  }

  /** A refresh that ends before it does anything. */
  lemma RefreshStops(quiet: bool, w: World, nodes: Nodes, id: string)
    ensures forall e :: !quiet ==> RefreshOutcome(quiet, w, w, nodes, id, Some(e))
    ensures id !in w.stacks ==> RefreshOutcome(quiet, w, w, nodes, id, Some(NotFound))
  {
  }

  /** A refresh that finds the stack unviable. */
  lemma RefreshDrops(quiet: bool, w: World, w': World, nodes: Nodes, id: string)
    requires id in w.stacks && !Viable(w, nodes, w.stacks[id])
    requires (w'.stacks == w.stacks && w'.ports == w.ports) || (w'.stacks == w.stacks - {id} && w'.ports == w.ports - PortSet(w.stacks[id]))
    requires w'.pods == w.pods || w'.pods == w.pods - {PodOf(w.stacks[id])}
    requires w'.services == w.services || w'.services == w.services - {ServiceOf(w.stacks[id])}
    requires quiet && w.stacks[id].serviceName != "" ==> w' == Without(w, id, Sweeps(w, nodes, w.stacks[id]))
    ensures RefreshOutcome(quiet, w, w', nodes, id, Some(NotFound))
  {
  }

  /** A refresh that finds it viable. */
  lemma RefreshUpdates(quiet: bool, w: World, w': World, nodes: Nodes, id: string)
    requires id in w.stacks && Viable(w, nodes, w.stacks[id])
    requires w' == w || (id in w'.stacks && w' == w.(stacks := w.stacks[id := w'.stacks[id]])
                         && Refreshed(w.stacks[id], w'.stacks[id], w.pods[PodOf(w.stacks[id])]))
    requires quiet ==> id in w'.stacks && Refreshed(w.stacks[id], w'.stacks[id], w.pods[PodOf(w.stacks[id])])
    ensures RefreshOutcome(quiet, w, w', nodes, id, None)
  {
  }

  /** Every target is cleaned or a failure, every failed scan is one too, and every success is a record or a pod gone. */
  ghost predicate Accounts(r: Report, w: World, w': World) {
    && (if r.listed then r.failures == (r.expired + r.missing + r.orphans - r.cleaned) + r.resourceScanErrors + r.orphanScanErrors
        else r == Report(false, 0, 0, 0, 0, 0, 1, 0, 0))
    && r.cleaned <= |w.stacks| - |w'.stacks| + |w.pods| - |w'.pods|
    && (r.expired + r.missing + r.orphans == 0 ==> r.cleaned == 0)
  }

  /** No more stacks and pods than before. */
  ghost predicate Shrinks(w: World, w': World) {
    |w'.stacks| <= |w.stacks| && |w'.pods| <= |w.pods|
  }

  /** Every entry of the list has a record, and no two the same. */
  ghost predicate Present(items: seq<Stack>, stacks: map<string, Stack>) {
    && (forall i :: 0 <= i < |items| ==> items[i].stackID in stacks)
    && (forall i, j :: 0 <= i < j < |items| ==> items[i].stackID != items[j].stackID)
  }

  lemma SizeWithout<K, V>(m: map<K, V>, k: K)
    ensures |m - {k}| == if k in m then |m| - 1 else |m|
  {
    assert (m - {k}).Keys == m.Keys - {k};
    assert |m - {k}| == |(m - {k}).Keys| && |m| == |m.Keys|;
  }

  lemma TouchShrinks(w: World, w': World, id: string)
    requires Touches(w, w', id)
    ensures Shrinks(w, w')
  {
    TouchCounts(w, w', id);
    if id in w.stacks { SizeWithout(w.pods, PodOf(w.stacks[id])); }
  }

  /** One stack less when it is gone, and as many as before when it is not. */
  lemma TouchCounts(w: World, w': World, id: string)
    requires Touches(w, w', id)
    ensures |w'.stacks| == |w.stacks| - (if id in w.stacks && id !in w'.stacks then 1 else 0)
  {
    SizeWithout(w.stacks, id);
    SizeWithout(w'.stacks, id);
  }

  lemma TouchKeepsNames(namespace: string, w: World, w': World, id: string)
    requires Touches(w, w', id) && Named(namespace, w.stacks)
    ensures Named(namespace, w'.stacks)
  {
    forall k | k in w'.stacks ensures SameStack(w.stacks[k], w'.stacks[k]) {
      if k != id { assert k in w'.stacks - {id} && k in w.stacks - {id}; }
    }
    RemainingKeepNames(namespace, w.stacks, w'.stacks);
  }

  ghost predicate PresentAmong(items: seq<Stack>, stacks: map<string, Stack>, ids: set<string>) {
    Present(items, stacks) && forall i :: 0 <= i < |items| ==> items[i].stackID in ids
  }

  lemma PresentOneMore(items: seq<Stack>, w: World, w': World, ids: set<string>, id: string, entry: Option<Stack>)
    requires PresentAmong(items, w.stacks, ids) && id !in ids && Touches(w, w', id)
    requires entry.Some? ==> entry.value.stackID == id && id in w'.stacks
    ensures PresentAmong(if entry.Some? then items + [entry.value] else items, w'.stacks, ids + {id})
  {
    forall i | 0 <= i < |items| ensures items[i].stackID in w'.stacks && items[i].stackID != id {
      assert items[i].stackID in w.stacks && items[i].stackID in ids;
      assert items[i].stackID in w.stacks - {id};
    }
  }

  /** The entries from `i` on still have their records. */
  ghost predicate StillThere(items: seq<Stack>, i: nat, stacks: map<string, Stack>) {
    forall j :: i <= j < |items| ==> items[j].stackID in stacks
  }

  lemma DropShrinks(w: World, w': World, st: Stack)
    requires w'.stacks == w.stacks || w'.stacks == w.stacks - {st.stackID}
    requires w'.pods == w.pods || w'.pods == w.pods - {PodOf(st)}
    ensures Shrinks(w, w')
  {
    SizeWithout(w.stacks, st.stackID);
    SizeWithout(w.pods, PodOf(st));
  }

  predicate AllIn(namespace: string, names: set<string>, pods: map<Ref, Pod>) {
    forall name :: name in names ==> Ref(namespace, name) in pods
  }

  /** A refresh of the first `i` entries so far: what it has collected is there. */
  ghost predicate RefreshCounts(items: seq<Stack>, i: nat, w0: World, w: World, refreshed: seq<Stack>)
    requires i <= |items|
  {
    Shrinks(w0, w) && PresentAmong(refreshed, w.stacks, IDs(items[..i]))
  }

  /** And, without faults, it is the view that the refresh keeps. */
  ghost predicate RefreshedSoFar(namespace: string, quiet: bool, nodes: Nodes, items: seq<Stack>, i: nat, w0: World, w: World, refreshed: seq<Stack>)
    requires i <= |items|
  {
    RefreshCounts(items, i, w0, w, refreshed) && (quiet ==> ListedSoFar(namespace, w0, w, nodes, IDs(items[..i]), refreshed))
  }

  lemma RefreshStarts(namespace: string, quiet: bool, nodes: Nodes, items: seq<Stack>, w0: World)
    requires Agree(w0.stacks, w0.ports)
    ensures RefreshedSoFar(namespace, quiet, nodes, items, 0, w0, w0, [])
  {
    NothingRefreshed(w0, nodes);
    assert IDs(items[..0]) == {};
  }

  lemma RefreshCountsMore(items: seq<Stack>, i: nat, w0: World, w: World, w': World, refreshed: seq<Stack>, entry: Option<Stack>)
    requires i < |items| && forall j, k :: 0 <= j < k < |items| ==> items[j].stackID != items[k].stackID
    requires RefreshCounts(items, i, w0, w, refreshed) && Touches(w, w', items[i].stackID)
    requires entry.Some? ==> entry.value.stackID == items[i].stackID && items[i].stackID in w'.stacks
    ensures RefreshCounts(items, i + 1, w0, w', if entry.Some? then refreshed + [entry.value] else refreshed)
  {
    FreshEntry(items, i);
    TouchShrinks(w, w', items[i].stackID);
    PresentOneMore(refreshed, w, w', IDs(items[..i]), items[i].stackID, entry);
  }

  /** A sweep of the first `i` entries so far: each success counted is a record gone. */
  ghost predicate SweepCounts(items: seq<Stack>, i: nat, w0: World, w: World, cleaned: nat) {
    Shrinks(w0, w) && (Present(items, w0.stacks) ==> StillThere(items, i, w.stacks) && |w.stacks| + cleaned <= |w0.stacks|)
  }

  lemma SweepDrops(items: seq<Stack>, i: nat, w0: World, w: World, w': World, cleaned: nat, failed: bool)
    requires i < |items| && SweepCounts(items, i, w0, w, cleaned)
    requires w'.stacks == w.stacks - {items[i].stackID} || (failed && w'.stacks == w.stacks)
    requires w'.pods == w.pods || w'.pods == w.pods - {PodOf(items[i])}
    ensures SweepCounts(items, i + 1, w0, w', cleaned + if failed then 0 else 1)
  {
    DropShrinks(w, w', items[i]);
    SizeWithout(w.stacks, items[i].stackID);
  }

  /** In a tidy world, what the first `i` entries of a sweep have come to. */
  ghost predicate SweptSoFar(namespace: string, tidy: bool, items: seq<Stack>, i: nat, doomed: Stack -> bool, w0: World, w: World)
    requires i <= |items|
  {
    tidy ==> WellNamed(namespace, w0) && IsView(items, w0.stacks, w0.stacks.Keys) && SweptAway(w0, w, Chosen(items[..i], doomed))
  }

  lemma SweepStarts(namespace: string, items: seq<Stack>, doomed: Stack -> bool, w0: World, tidy: bool)
    requires Agree(w0.stacks, w0.ports) && (tidy ==> WellNamed(namespace, w0) && IsView(items, w0.stacks, w0.stacks.Keys))
    ensures SweptSoFar(namespace, tidy, items, 0, doomed, w0, w0) && SweepCounts(items, 0, w0, w0, 0)
  {
    NothingPruned(w0);
    assert Chosen(items[..0], doomed) == {};
  }

  lemma SweepPasses(namespace: string, tidy: bool, items: seq<Stack>, i: nat, doomed: Stack -> bool, w0: World, w: World, cleaned: nat)
    requires i < |items| && !doomed(items[i]) && SweepCounts(items, i, w0, w, cleaned) && SweptSoFar(namespace, tidy, items, i, doomed, w0, w)
    ensures SweepCounts(items, i + 1, w0, w, cleaned) && SweptSoFar(namespace, tidy, items, i + 1, doomed, w0, w)
  {
    if tidy { ChosenOneMore(items, i, doomed); }
  }

  lemma SweepEnds(namespace: string, tidy: bool, items: seq<Stack>, doomed: Stack -> bool, w0: World, w: World)
    requires SweptSoFar(namespace, tidy, items, |items|, doomed, w0, w)
    ensures tidy ==> SweptAway(w0, w, Chosen(items, doomed)) && WellNamed(namespace, w)
  {
    assert items[..|items|] == items;
    if tidy { PruneKeepsNames(namespace, w0, w, Chosen(items, doomed), Chosen(items, doomed)); }
  }

  /** The repository says that this pod is its stack's. */
  predicate Owned(pod: Pod, name: string, stacks: map<string, Stack>) {
    pod.stackID != "" && pod.stackID in stacks && stacks[pod.stackID].podID == name
  }

  lemma UnsparedNext(namespace: string, w: World, registered: set<string>, pods: map<string, Pod>, left: set<string>, name: string, now: Time)
    requires name in left && left <= pods.Keys && Listed(namespace, pods, w.pods)
    ensures Unspared(namespace, w, registered, pods.Keys - (left - {name}), now) ==
              Unspared(namespace, w, registered, pods.Keys - left, now)
              + (if name in registered || InGrace(pods[name], now) || Owned(pods[name], name, w.stacks) then {} else {Ref(namespace, name)})
  {
    UnsparedOneMore(namespace, w, registered, pods.Keys - left, name, now);
    assert pods.Keys - (left - {name}) == pods.Keys - left + {name};
  }

  /** With the pods of `left` still to look at: which went, and that each success counted is one gone. */
  ghost predicate OrphansSoFar(namespace: string, quiet: bool, registered: set<string>, pods: map<string, Pod>, left: set<string>,
                               w0: World, after: map<Ref, Pod>, cleaned: int, now: Time)
  {
    && AllIn(namespace, left, after) && |after| + cleaned <= |w0.pods|
    && (quiet ==> after == w0.pods - Unspared(namespace, w0, registered, pods.Keys - left, now))
  }

  lemma OrphansStart(namespace: string, quiet: bool, registered: set<string>, pods: map<string, Pod>, w0: World, now: Time)
    requires Listed(namespace, pods, w0.pods)
    ensures OrphansSoFar(namespace, quiet, registered, pods, pods.Keys, w0, w0.pods, 0, now)
  {
    assert pods.Keys - pods.Keys == {};
    assert Unspared(namespace, w0, registered, {}, now) == {};
  }

  lemma OrphansNext(namespace: string, quiet: bool, registered: set<string>, pods: map<string, Pod>, left: set<string>, name: string,
                    w0: World, before: map<Ref, Pod>, after: map<Ref, Pod>, cleaned: int, target: bool, failed: bool, now: Time)
    requires Listed(namespace, pods, w0.pods) && name in left && left <= pods.Keys
    requires OrphansSoFar(namespace, quiet, registered, pods, left, w0, before, cleaned, now)
    requires after == before - {Ref(namespace, name)} || (after == before && (!target || failed))
    requires !target ==> after == before
    requires quiet ==> !failed && (target <==> name !in registered && !InGrace(pods[name], now) && !Owned(pods[name], name, w0.stacks))
    ensures OrphansSoFar(namespace, quiet, registered, pods, left - {name}, w0, after, cleaned + (if target && !failed then 1 else 0), now)
  {
    SizeWithout(before, Ref(namespace, name));
    if quiet { UnsparedNext(namespace, w0, registered, pods, left, name, now); }
  }

  /** The listing of stacks, then the sweep of the pods it does not register. */
  lemma UnregisteredConcludes(namespace: string, tidy: bool, quiet: bool, w0: World, listed: World, w: World, view: seq<Stack>,
                              registered: set<string>, listing: map<string, Pod>, nodes: Nodes, now: Time)
    requires tidy ==> quiet && RefreshedWorld(w0, listed, nodes, w0.stacks.Keys)
    requires tidy ==> IsView(view, listed.stacks, listed.stacks.Keys) && WellNamed(namespace, listed)
    requires Listed(namespace, listing, listed.pods) && registered == set st | st in view && st.podID != "" :: st.podID
    requires w == listed.(pods := w.pods)
    requires quiet ==> w.pods == listed.pods - Unspared(namespace, listed, registered, listing.Keys, now)
    ensures tidy ==> RefreshedWorld(w0, listed, nodes, w0.stacks.Keys) && OrphansGone(namespace, listed, w, now)
  {
    if tidy { UnregisteredSwept(namespace, listed, w, view, listing, now); }
  }

  class Service {
    const cfg: Config
    const repo: InMemoryRepository
    const k8s: KubernetesClient
    const faults: Faults := k8s.faults

    constructor (cfg: Config, repo: InMemoryRepository, k8s: KubernetesClient)
      ensures this.cfg == cfg && this.repo == repo && this.k8s == k8s
    {
      this.cfg, this.repo, this.k8s := cfg, repo, k8s;
    }

    // ---------- Provisioning ----------

    method ReleasePorts(reserved: seq<int>)
      requires repo.Valid()
      requires forall p :: p in reserved ==> p in repo.ports && repo.ports[p] == ""
      modifies repo
      ensures repo.Valid() && repo.stacks == old(repo.stacks) && repo.jobs == old(repo.jobs)
      ensures faults.Undoes() ==> repo.ports == old(repo.ports) - Elements(reserved)
      ensures Leaks(old(repo.ports) - Elements(reserved), repo.ports)
    {
      for i := 0 to |reserved|
        invariant repo.Valid() && repo.stacks == old(repo.stacks) && repo.jobs == old(repo.jobs)
        invariant forall p :: p in repo.ports ==> p in old(repo.ports) && repo.ports[p] == old(repo.ports)[p]
        invariant forall p :: p in old(repo.ports) && p !in reserved[..i] ==> p in repo.ports
        invariant faults.Undoes() ==> repo.ports == old(repo.ports) - Elements(reserved[..i])
      {
        var err := faults.Next(true);
        if err.None? {
          repo.ReleaseNodePort(reserved[i]);
        }
        assert reserved[..i + 1] == reserved[..i] + [reserved[i]];
      }
      assert reserved[..|reserved|] == reserved;
    }

    method ReserveOne() returns (r: Result<int, Error>)
      requires repo.Valid()
      modifies repo
      ensures repo.Valid() && repo.stacks == old(repo.stacks) && repo.jobs == old(repo.jobs)
      ensures r.Ok? ==> r.value in FreePorts(cfg, old(repo.ports)) && repo.ports == old(repo.ports)[r.value := ""]
      ensures r.Err? ==> repo.ports == old(repo.ports)
      ensures faults.quiet ==> (r.Err? <==> FreePorts(cfg, old(repo.ports)) == {})
    {
      var err := faults.Next(false);
      if err.Some? {
        return Err(err.value);
      }
      r := repo.ReserveNodePort(cfg.nodePortMin, cfg.nodePortMax);
      assert r.Ok? ==> r.value in FreePorts(cfg, old(repo.ports));
    }

    /** All or nothing: a mapping with a port of its own for every target, or none reserved. */
    method ReservePorts(targets: seq<PortSpec>) returns (r: Result<seq<PortMapping>, Error>)
      requires repo.Valid()
      modifies repo
      ensures repo.Valid() && repo.stacks == old(repo.stacks) && repo.jobs == old(repo.jobs)
      ensures r.Ok? ==> Maps(cfg, old(repo.ports), targets, r.value) && repo.ports == Claim(old(repo.ports), PortsIn(r.value), "")
      ensures r.Err? && faults.Undoes() ==> repo.ports == old(repo.ports)
      ensures Leaks(old(repo.ports), repo.ports)
      ensures faults.quiet ==> (r.Ok? <==> |FreePorts(cfg, old(repo.ports))| >= |targets|)
    {
      var mappings: seq<PortMapping> := [];
      var reserved: seq<int> := [];
      ghost var before := repo.ports;
      for i := 0 to |targets|
        invariant repo.Valid() && repo.stacks == old(repo.stacks) && repo.jobs == old(repo.jobs)
        invariant reserved == NodePorts(mappings) && Maps(cfg, before, targets[..i], mappings)
        invariant repo.ports == Claim(before, PortsIn(mappings), "")
      {
        PortsAreFree(cfg, before, targets[..i], mappings);
        var got := ReserveOne();
        if got.Err? {
          PortsInNodePorts(mappings);
          Unclaimed(before, PortsIn(mappings));
          ReleasePorts(reserved);
          return Err(got.error);
        }
        OneMore(cfg, before, targets, mappings, got.value);
        mappings := mappings + [Mapping(targets[i], got.value)];
        reserved := reserved + [got.value];
      }
      assert targets[..|targets|] == targets;
      PortsAreFree(cfg, before, targets, mappings);
      return Ok(mappings);
    }

    /** Takes back the pod, the service and the ports of a stack that could not be committed. */
    method Undo(st: Stack, ghost before: Mem, ghost pods: map<Ref, Pod>, ghost services: map<Ref, Kubernetes.Service>)
      requires repo.Valid() && st.serviceName != "" && Reserves(cfg, before, repo.Contents(), st)
      requires Deploys(pods, k8s.pods, services, k8s.services, st)
      modifies repo, k8s`pods, k8s`services
      ensures repo.Valid() && repo.stacks == before.stacks && repo.jobs == before.jobs && Leaks(before.ports, repo.ports)
      ensures faults.Undoes() ==> repo.ports == before.ports && k8s.pods == pods && k8s.services == services
    {
      PortsInNodePorts(st.ports);
      Unclaimed(before.ports, PortsIn(st.ports));
      Undeployed(pods, k8s.pods, services, k8s.services, st);
      var _ := k8s.DeletePodAndService(st.namespace, st.podID, st.serviceName, true);
      ReleasePorts(NodePorts(st.ports));
    }

    /** Commits a stack whose pod and service are up, or undoes it. */
    method CommitOrUndo(st: Stack, ghost before: Mem, ghost pods: map<Ref, Pod>, ghost services: map<Ref, Kubernetes.Service>)
      returns (err: Option<Error>)
      requires repo.Valid() && st.stackID != "" && st.serviceName != "" && Reserves(cfg, before, repo.Contents(), st)
      requires Deploys(pods, k8s.pods, services, k8s.services, st)
      modifies repo, k8s`pods, k8s`services
      ensures repo.Valid()
      ensures err.None? ==>
        RecordsStack(cfg, before, repo.Contents(), st) && k8s.pods == old(k8s.pods) && k8s.services == old(k8s.services)
      ensures err.Some? ==> repo.stacks == before.stacks && repo.jobs == before.jobs && Leaks(before.ports, repo.ports)
      ensures err.Some? && faults.Undoes() ==> repo.ports == before.ports && k8s.pods == pods && k8s.services == services
    {
      err := faults.Next(false);
      if err.None? {
        err := repo.Create(st);
      }
      if err.Some? {
        Undo(st, before, pods, services);
      } else {
        CommitAfterReserve(cfg, before, old(repo.Contents()), st);
      }
    }

    /**
     One attempt: reserve ports, create pod and service, commit. `clash` when the cluster
     refused because a node port is in use. When undoing works, an error leaves no trace.
     */
    method Attempt(valid: ValidationResult, stackID: string, podName: string, now: Time)
      returns (r: Result<Stack, Error>, clash: bool)
      requires repo.Valid() && stackID != "" && podName != ""
      modifies repo, k8s`pods, k8s`services
      ensures repo.Valid()
      ensures r.Err? && faults.Undoes() ==>
        repo.Contents() == old(repo.Contents()) && k8s.pods == old(k8s.pods) && k8s.services == old(k8s.services)
      ensures r.Ok? ==>
        && Provisions(cfg, valid, stackID, podName, now, r.value)
        && RecordsStack(cfg, old(repo.Contents()), repo.Contents(), r.value)
        && Deploys(old(k8s.pods), k8s.pods, old(k8s.services), k8s.services, r.value)
      ensures r.Err? ==> repo.stacks == old(repo.stacks) && repo.jobs == old(repo.jobs) && Leaks(old(repo.ports), repo.ports)
      ensures clash ==> r.Err?
    {
      clash := false;
      var reserved := ReservePorts(valid.targetPorts);
      if reserved.Err? {
        return Err(reserved.error), false;
      }
      var ports := reserved.value;
      PortsInNodePorts(ports);
      Unclaimed(old(repo.ports), PortsIn(ports));
      var made := k8s.CreatePodAndService(cfg.namespace, stackID, podName, ports, now);
      if made.Err? {
        ReleasePorts(NodePorts(ports));
        return Err(made.error), made.error.PortAllocated?;
      }
      var ip := k8s.GetNodePublicIP(made.value.nodeID);
      var st := Stack(stackID, made.value.podID, cfg.namespace, made.value.nodeID,
                      if ip.Ok? then ip.value else None, valid.sanitized, valid.targetPorts, ports,
                      made.value.serviceName, made.value.status, now + cfg.stackTTL, now, now,
                      valid.requestedMilli, valid.requestedBytes);
      var err := CommitOrUndo(st, old(repo.Contents()), old(k8s.pods), old(k8s.services));
      return if err.Some? then Err(err.value) else Ok(st), false;
    }

    /** Creates a stack, with one retry when the cluster finds a node port in use. */
    method Create(valid: ValidationResult, stackID: string, now: Time) returns (r: Result<Stack, Error>, ghost attempts: nat)
      requires repo.Valid() && stackID != ""
      modifies repo, k8s`pods, k8s`services
      ensures repo.Valid()
      ensures r.Err? && faults.Undoes() ==>
        repo.Contents() == old(repo.Contents()) && k8s.pods == old(k8s.pods) && k8s.services == old(k8s.services)
      ensures 1 <= attempts <= 2
      ensures r.Ok? ==> Provisions(cfg, valid, stackID, RetryName(stackID, attempts - 1), now, r.value)
      ensures r.Ok? ==> stackID !in old(repo.stacks) && repo.stacks == old(repo.stacks)[stackID := r.value]
      ensures Generated(stackID) && Named(cfg.namespace, old(repo.stacks)) ==> Named(cfg.namespace, repo.stacks)
      ensures r.Ok? && faults.Undoes() ==>
        && RecordsStack(cfg, old(repo.Contents()), repo.Contents(), r.value)
        && Deploys(old(k8s.pods), k8s.pods, old(k8s.services), k8s.services, r.value)
      ensures r.Err? ==> repo.stacks == old(repo.stacks) && Leaks(old(repo.ports), repo.ports)
    {
      var attempt := 0;
      attempts := 0;
      while attempt < 2
        invariant 0 <= attempt <= 1 && attempts == attempt
        invariant repo.Valid() && repo.stacks == old(repo.stacks) && repo.jobs == old(repo.jobs)
        invariant Leaks(old(repo.ports), repo.ports)
        invariant faults.Undoes() ==> repo.ports == old(repo.ports) && k8s.pods == old(k8s.pods) && k8s.services == old(k8s.services)
        decreases 2 - attempt
      {
        var clash: bool;
        attempts := attempts + 1;
        r, clash := Attempt(valid, stackID, RetryName(stackID, attempt), now);
        if attempt == 0 && clash {
          attempt := attempt + 1;
          continue;
        }
        if r.Ok? && Generated(stackID) && Named(cfg.namespace, old(repo.stacks)) {
          NewKeepsNames(cfg.namespace, old(repo.stacks), stackID, r.value, attempts - 1);
        }
        return;
      }
      assert false;
    }

    // ---------- Refresh, delete, list ----------

    function Now(): World
      reads repo, k8s
    {
      World(repo.stacks, repo.ports, k8s.pods, k8s.services)
    }

    /** Deletes pod and service, then the record whatever the cluster answered. */
    method Drop(st: Stack) returns (podFailed: bool, err: Option<Error>)
      requires repo.Valid()
      modifies repo, k8s`pods, k8s`services
      ensures repo.Valid() && repo.jobs == old(repo.jobs)
      ensures faults.quiet && st.serviceName != "" && st.stackID in old(repo.stacks) && SameStack(old(repo.stacks)[st.stackID], st) ==>
        !podFailed && err.None? && Now() == Without(old(Now()), st.stackID, true)
      ensures err.Some? ==> err.value != NotFound
      ensures repo.Contents() == if err.None? then AfterDelete(old(repo.Contents()), st.stackID) else old(repo.Contents())
      ensures repo.stacks == if err.None? then old(repo.stacks) - {st.stackID} else old(repo.stacks)
      ensures k8s.pods == old(k8s.pods) - {PodOf(st)} || (podFailed && k8s.pods == old(k8s.pods))
      ensures k8s.services == old(k8s.services) || (st.serviceName != "" && k8s.services == old(k8s.services) - {ServiceOf(st)})
      ensures !podFailed && st.serviceName != "" ==> k8s.services == old(k8s.services) - {ServiceOf(st)}
    {
      var podErr := k8s.DeletePodAndService(st.namespace, st.podID, st.serviceName, false);
      podFailed := podErr.Some?;
      err := faults.Next(false);
      if err.None? {
        DeletesItsRecord(repo.Contents(), st.stackID);
        var _ := repo.Delete(st.stackID);
      }
    }

    method Delete(id: string) returns (err: Option<Error>)
      requires repo.Valid()
      modifies repo, k8s`pods, k8s`services
      ensures repo.Valid() && repo.jobs == old(repo.jobs)
      ensures faults.quiet && id !in old(repo.stacks) ==> err == Some(NotFound) && Now() == old(Now())
      ensures faults.quiet && id in old(repo.stacks) && old(repo.stacks)[id].serviceName != "" ==>
        err.None? && Now() == Without(old(Now()), id, true)
      ensures err == Some(NotFound) ==> id !in old(repo.stacks) && Now() == old(Now())
      ensures Touches(old(Now()), Now(), id)
      ensures err.None? <==> id in old(repo.stacks) && id !in repo.stacks
    {
      err := faults.Next(false);
      if err.Some? {
        return;
      }
      var st := repo.Get(id);
      if st.None? {
        return Some(NotFound);
      }
      var podFailed: bool;
      podFailed, err := Drop(st.value);
    }

    /** A refresh that finds the node or the pod lost drops the stack. */
    method DropUnviable(st: Stack) returns (err: Option<Error>)
      requires repo.Valid() && st.stackID in repo.stacks && repo.stacks[st.stackID] == st
      requires !Viable(Now(), k8s.nodes, st) && Sweeps(Now(), k8s.nodes, st)
      modifies repo, k8s`pods, k8s`services
      ensures repo.Valid() && repo.jobs == old(repo.jobs)
      ensures err == Some(NotFound) && RefreshOutcome(faults.quiet, old(Now()), Now(), k8s.nodes, st.stackID, err)
    {
      var _, _ := Drop(st);
      RefreshDrops(faults.quiet, old(Now()), Now(), k8s.nodes, st.stackID);
      return Some(NotFound);
    }

    /** A refresh that finds no pod on a live node deletes the record alone. */
    method Forget(st: Stack) returns (err: Option<Error>)
      requires repo.Valid() && st.stackID in repo.stacks && repo.stacks[st.stackID] == st
      requires NodeLive(k8s.nodes, st) && PodOf(st) !in k8s.pods
      modifies repo
      ensures repo.Valid() && repo.jobs == old(repo.jobs)
      ensures err == Some(NotFound) && RefreshOutcome(faults.quiet, old(Now()), Now(), k8s.nodes, st.stackID, err)
    {
      err := faults.Next(false);
      if err.None? {
        var _ := repo.Delete(st.stackID);
      }
      assert k8s.pods - {PodOf(st)} == k8s.pods;
      RefreshDrops(faults.quiet, old(Now()), Now(), k8s.nodes, st.stackID);
      return Some(NotFound);
    }

    method RefreshStatus(id: string) returns (err: Option<Error>)
      requires repo.Valid()
      modifies repo, k8s`pods, k8s`services
      ensures repo.Valid() && repo.jobs == old(repo.jobs)
      ensures RefreshOutcome(faults.quiet, old(Now()), Now(), k8s.nodes, id, err)
    {
      ghost var w := Now();
      RefreshStops(faults.quiet, w, k8s.nodes, id);
      err := faults.Next(false);
      if err.Some? {
        return;
      }
      var found := repo.Get(id);
      if found.None? {
        return Some(NotFound);
      }
      var st := found.value;
      var live := k8s.NodeExists(st.nodeID);
      if live.Err? {
        return Some(live.error);
      }
      if !live.value {
        err := DropUnviable(st);
        return;
      }
      var status := k8s.GetPodStatus(st.namespace, st.podID);
      if status.Err? {
        if status.error != NotFound {
          return Some(status.error);
        }
        err := Forget(st);
        return;
      }
      if status.value.0 == STATUS_NODE_DELETED {
        err := DropUnviable(st);
        return;
      }
      err := faults.Next(false);
      if err.None? {
        var at: Time := *;
        var _ := repo.UpdateStatus(st.stackID, status.value.0, status.value.1, at);
      }
      RefreshUpdates(faults.quiet, w, Now(), k8s.nodes, id);
      return None;
    }

    /** Refreshes one stack and reads it back; no entry when the refresh removed it. */
    method RefreshAndGet(id: string) returns (r: Result<Option<Stack>, Error>)
      requires repo.Valid()
      modifies repo, k8s`pods, k8s`services
      ensures repo.Valid() && repo.jobs == old(repo.jobs)
      ensures faults.quiet && id in old(repo.stacks) && old(repo.stacks)[id].serviceName != "" ==>
        r.Ok? && ReadBack(old(Now()), Now(), k8s.nodes, id, r.value)
      ensures Touches(old(Now()), Now(), id)
      ensures r.Ok? && r.value.Some? ==> r.value.value.stackID == id && id in repo.stacks
    {
      var err := RefreshStatus(id);
      if err == Some(NotFound) {
        return Ok(None);
      }
      if err.None? {
        err := faults.Next(false);
      }
      if err.Some? {
        return Err(err.value);
      }
      var found := repo.Get(id);
      if found.None? {
        return Ok(None);
      }
      var ip := k8s.GetNodePublicIP(found.value.nodeID);
      return Ok(Some(found.value.(nodePublicIP := if ip.Ok? then ip.value else None)));
    }

    /** The next stack of a listing refreshed; `w0` is the world before the first one was. */
    method RefreshNext(items: seq<Stack>, i: nat, refreshed: seq<Stack>, ghost w0: World) returns (r: Result<seq<Stack>, Error>)
      requires repo.Valid() && i < |items|
      requires forall j, k :: 0 <= j < k < |items| ==> items[j].stackID != items[k].stackID
      requires IDs(items) == w0.stacks.Keys && RefreshedSoFar(cfg.namespace, faults.quiet, k8s.nodes, items, i, w0, Now(), refreshed)
      modifies repo, k8s`pods, k8s`services
      ensures repo.Valid() && repo.jobs == old(repo.jobs)
      ensures if r.Ok? then RefreshedSoFar(cfg.namespace, faults.quiet, k8s.nodes, items, i + 1, w0, Now(), r.value) else Shrinks(w0, Now())
      ensures faults.quiet && WellNamed(cfg.namespace, w0) ==> r.Ok?
    {
      ghost var w := Now();
      FreshEntry(items, i);
      if faults.quiet {
        StillListed(cfg.namespace, w0, w, k8s.nodes, IDs(items[..i]), items[i].stackID, refreshed);
      }
      var entry := RefreshAndGet(items[i].stackID);
      ghost var w' := Now();
      if entry.Err? {
        TouchShrinks(w, w', items[i].stackID);
        return Err(entry.error);
      }
      RefreshCountsMore(items, i, w0, w, w', refreshed, entry.value);
      if faults.quiet {
        ListOneMore(cfg.namespace, w0, w, w', k8s.nodes, IDs(items[..i]), items[i].stackID, refreshed, entry.value);
      }
      return Ok(if entry.value.Some? then refreshed + [entry.value.value] else refreshed);
    }

    /** Refreshes the listed stacks one by one; the result has those that remain. */
    method RefreshEach(items: seq<Stack>) returns (r: Result<seq<Stack>, Error>)
      requires repo.Valid()
      requires forall j, k :: 0 <= j < k < |items| ==> items[j].stackID != items[k].stackID
      requires IDs(items) == repo.stacks.Keys
      modifies repo, k8s`pods, k8s`services
      ensures repo.Valid() && repo.jobs == old(repo.jobs)
      ensures faults.quiet ==> (WellNamed(cfg.namespace, old(Now())) ==> r.Ok?)
      ensures faults.quiet && r.Ok? ==> ListedSoFar(cfg.namespace, old(Now()), Now(), k8s.nodes, IDs(items), r.value)
      ensures Shrinks(old(Now()), Now()) && (r.Ok? ==> Present(r.value, repo.stacks))
    {
      ghost var w0, w := Now(), Now();
      RefreshStarts(cfg.namespace, faults.quiet, k8s.nodes, items, w0);
      r := Ok([]);
      for i := 0 to |items|
        invariant repo.Valid() && repo.jobs == old(repo.jobs) && r.Ok? && w == Now()
        invariant RefreshedSoFar(cfg.namespace, faults.quiet, k8s.nodes, items, i, w0, w, r.value)
      {
        r := RefreshNext(items, i, r.value, w0);
        w := Now();
        if r.Err? {
          return;
        }
      }
      assert items[..|items|] == items;
    }

    /** Every stack whose refresh kept it. `w0` is the world it begins in. */
    method ListAll(ghost w0: World) returns (r: Result<seq<Stack>, Error>, ghost w: World)
      requires repo.Valid() && w0 == Now()
      modifies repo, k8s`pods, k8s`services
      ensures repo.Valid() && repo.jobs == old(repo.jobs) && w == Now()
      ensures faults.quiet && WellNamed(cfg.namespace, w0) ==>
        && r.Ok?
        && RefreshedWorld(w0, w, k8s.nodes, w0.stacks.Keys)
        && IsView(r.value, w.stacks, w.stacks.Keys) && WellNamed(cfg.namespace, w)
      ensures Shrinks(w0, w) && (r.Ok? ==> Present(r.value, w.stacks))
    {
      var err := faults.Next(false);
      if err.Some? {
        return Err(err.value), w0;
      }
      var items := repo.ListAll();
      ListingIDs(items, repo.stacks);
      r := RefreshEach(items);
      w := Now();
      if faults.quiet && WellNamed(cfg.namespace, w0) {
        ListingKeepsNames(cfg.namespace, w0, w, k8s.nodes, IDs(items), r.value);
      }
    }

    // ---------- Batch deletion ----------

    method StartBatchDelete(ids: seq<string>, jobID: string, now: Time) returns (r: Result<string, Error>)
      modifies repo`jobs
      ensures ids == [] ==> r == Err(InvalidInput)
      ensures r.Ok? ==> r.value == jobID && ids != [] && jobID !in old(repo.jobs) && jobID in repo.jobs
      ensures r.Ok? ==> IsQueued(repo.jobs[jobID], ids) && repo.jobs == old(repo.jobs)[jobID := repo.jobs[jobID]]
      ensures r.Err? ==> repo.jobs == old(repo.jobs)
    {
      if |ids| == 0 {
        return Err(InvalidInput);
      }
      var err := faults.Next(false);
      if err.None? {
        err := repo.CreateBatchDeleteJob(BatchDeleteJob(jobID, JOB_QUEUED, |ids|, 0, 0, 0, [], now, now));
      }
      return if err.Some? then Err(err.value) else Ok(jobID);
    }

    method WriteJob(job: BatchDeleteJob) returns (written: BatchDeleteJob)
      modifies repo`jobs
      ensures written == job.(updatedAt := written.updatedAt)
      ensures OnlyJob(old(repo.jobs), repo.jobs, job.jobID)
      ensures faults.quiet && job.jobID in old(repo.jobs) ==> repo.jobs == old(repo.jobs)[job.jobID := written]
    {
      var at: Time := *;
      written := job.(updatedAt := at);
      var err := faults.Next(false);
      if err.None? {
        var _ := repo.UpdateBatchDeleteJob(written);
      }
    }

    method DeleteAndTally(job: BatchDeleteJob, id: string) returns (next: BatchDeleteJob, outcome: Outcome)
      requires repo.Valid()
      modifies repo, k8s`pods, k8s`services
      ensures repo.Valid()
      ensures next == AddOutcome(job, id, outcome).(updatedAt := next.updatedAt)
      ensures next.deleted == job.deleted + (if outcome.Removed? then 1 else 0)
      ensures OnlyJob(old(repo.jobs), repo.jobs, job.jobID)
      ensures faults.quiet && job.jobID in old(repo.jobs) ==> repo.jobs == old(repo.jobs)[job.jobID := next]
      ensures faults.quiet && id !in old(repo.stacks) ==> outcome == Absent && Now() == old(Now())
      ensures faults.quiet && id in old(repo.stacks) && old(repo.stacks)[id].serviceName != "" ==>
        outcome == Removed && Now() == Without(old(Now()), id, true)
      ensures Touches(old(Now()), Now(), id) && (outcome.Removed? <==> id in old(repo.stacks) && id !in repo.stacks)
      ensures outcome.Absent? ==> id !in old(repo.stacks)
    {
      var err := Delete(id);
      outcome := if err.None? then Removed else if err.value == NotFound then Absent else Broken(ErrorText(err.value));
      next := WriteJob(AddOutcome(job, id, outcome));
    }

    /** The next requested stack; `w0` and `jobs0` are as they were before the first one. */
    method DeleteNext(job: BatchDeleteJob, ids: seq<string>, i: nat, ghost first: BatchDeleteJob, ghost start: BatchDeleteJob,
                      ghost written: seq<BatchDeleteJob>, ghost outcomes: seq<Outcome>,
                      ghost w0: World, ghost jobs0: map<string, BatchDeleteJob>, ghost tidy: bool)
      returns (next: BatchDeleteJob, outcome: Outcome)
      requires repo.Valid() && |outcomes| == i < |ids| && (tidy ==> faults.quiet)
      requires IsPartialLog(written, start, ids, outcomes) && job == written[i]
      requires JobKept(faults.quiet, jobs0, repo.jobs, first, job) && DeletedSoFar(cfg.namespace, tidy, ids, i, w0, Now(), job.deleted)
      modifies repo, k8s`pods, k8s`services
      ensures repo.Valid()
      ensures IsPartialLog(written + [next], start, ids, outcomes + [outcome])
      ensures JobKept(faults.quiet, jobs0, repo.jobs, first, next) && DeletedSoFar(cfg.namespace, tidy, ids, i + 1, w0, Now(), next.deleted)
    {
      ghost var w, jobs := Now(), repo.jobs;
      if tidy {
        DeleteOneMore(cfg.namespace, w0, w, ids, i);
      }
      next, outcome := DeleteAndTally(job, ids[i]);
      JobKeptAgain(faults.quiet, jobs0, jobs, repo.jobs, first, job, next);
      LogOneMore(written, start, ids, outcomes, outcome, next);
      DeletedNext(cfg.namespace, tidy, ids, i, w0, w, Now(), next.deleted, outcome);
    }

    /** Deletes the requested stacks one by one, writing the job after each. */
    method DeleteEach(first: BatchDeleteJob, ids: seq<string>, ghost start: BatchDeleteJob)
      returns (job: BatchDeleteJob, ghost written: seq<BatchDeleteJob>, ghost outcomes: seq<Outcome>)
      requires repo.Valid() && IsPartialLog([first], start, ids, [])
      modifies repo, k8s`pods, k8s`services
      ensures repo.Valid()
      ensures |outcomes| == |ids| && IsPartialLog(written, start, ids, outcomes) && job == written[|ids|]
      ensures JobKept(faults.quiet, old(repo.jobs), repo.jobs, first, job)
      ensures faults.quiet && WellNamed(cfg.namespace, old(Now())) ==>
        SweptAway(old(Now()), Now(), LiveAmong(ids, old(repo.stacks))) && job.deleted == |LiveAmong(ids, old(repo.stacks))|
      ensures |repo.stacks| + job.deleted == |old(repo.stacks)|
    {
      ghost var w0, jobs0 := Now(), repo.jobs;
      ghost var tidy := faults.quiet && WellNamed(cfg.namespace, w0);
      DeletionStarts(cfg.namespace, tidy, ids, w0);
      job, written, outcomes := first, [first], [];
      for i := 0 to |ids|
        invariant repo.Valid()
        invariant |outcomes| == i && IsPartialLog(written, start, ids, outcomes) && job == written[i]
        invariant JobKept(faults.quiet, jobs0, repo.jobs, first, job)
        invariant DeletedSoFar(cfg.namespace, tidy, ids, i, w0, Now(), job.deleted)
      {
        var outcome: Outcome;
        job, outcome := DeleteNext(job, ids, i, first, start, written, outcomes, w0, jobs0, tidy);
        written, outcomes := written + [job], outcomes + [outcome];
      }
      DeletionEnds(cfg.namespace, tidy, ids, w0, Now(), job.deleted);
    }

    /**
     The worker of a queued job. `written` is every snapshot it sends, `outcomes` what each
     delete came to. Alone and without faults, exactly the live stacks among the requested
     ones go, and the job counts each of them once.
     */
    method RunBatchDelete(jobID: string, ids: seq<string>)
      returns (ghost written: seq<BatchDeleteJob>, ghost outcomes: seq<Outcome>)
      requires repo.Valid()
      requires jobID in repo.jobs ==> IsQueued(repo.jobs[jobID], ids) && repo.jobs[jobID].jobID == jobID
      modifies repo, k8s`pods, k8s`services
      ensures repo.Valid()
      ensures jobID !in old(repo.jobs) ==> written == [] && Now() == old(Now()) && repo.jobs == old(repo.jobs)
      ensures written != [] ==> jobID in old(repo.jobs) && IsLog(written, old(repo.jobs)[jobID], ids, outcomes)
      ensures OnlyJob(old(repo.jobs), repo.jobs, jobID)
      ensures written != [] ==> |repo.stacks| + written[|ids| + 1].deleted == |old(repo.stacks)|
      ensures faults.quiet && jobID in old(repo.jobs) ==>
        |written| == |ids| + 2 && repo.jobs == old(repo.jobs)[jobID := written[|ids| + 1]]
      ensures faults.quiet && jobID in old(repo.jobs) && WellNamed(cfg.namespace, old(Now())) ==>
        && SweptAway(old(Now()), Now(), LiveAmong(ids, old(repo.stacks)))
        && written[|ids| + 1].deleted == |LiveAmong(ids, old(repo.stacks))|
    {
      written, outcomes := [], [];
      var err := faults.Next(false);
      var found := repo.GetBatchDeleteJob(jobID);
      if err.Some? || found.None? {
        return;
      }
      var first := WriteJob(found.value.(status := JOB_RUNNING));
      LogStarts(found.value, ids, first);
      ghost var jobs1 := repo.jobs;
      var job: BatchDeleteJob;
      job, written, outcomes := DeleteEach(first, ids, found.value);
      ghost var jobs2 := repo.jobs;
      OnlyJobTwice(old(repo.jobs), jobs1, jobs2, jobID);
      assert faults.quiet ==> repo.jobs == old(repo.jobs)[jobID := job];
      var status := if job.failed > 0 && job.deleted == 0 && job.notFound == 0 then JOB_FAILED else JOB_COMPLETED;
      job := WriteJob(job.(status := status));
      OnlyJobTwice(old(repo.jobs), jobs2, repo.jobs, jobID);
      LogEnds(written, found.value, ids, outcomes, job);
      written := written + [job];
    }

    // ---------- Cleanup ----------

    /** The next stack of a listing, dropped; `w0` is the world before the first one was. */
    method SweepNext(items: seq<Stack>, i: nat, ghost doomed: Stack -> bool, ghost w0: World, ghost tidy: bool, ghost cleaned: nat)
      returns (failed: bool)
      requires repo.Valid() && i < |items| && doomed(items[i]) && (tidy ==> faults.quiet)
      requires SweepCounts(items, i, w0, Now(), cleaned) && SweptSoFar(cfg.namespace, tidy, items, i, doomed, w0, Now())
      modifies repo, k8s`pods, k8s`services
      ensures repo.Valid() && repo.jobs == old(repo.jobs)
      ensures SweepCounts(items, i + 1, w0, Now(), cleaned + if failed then 0 else 1)
      ensures SweptSoFar(cfg.namespace, tidy, items, i + 1, doomed, w0, Now()) && (tidy ==> !failed)
    {
      ghost var w := Now();
      if tidy {
        NotSweptYet(cfg.namespace, w0, w, items, i, doomed);
      }
      var podFailed, err := Drop(items[i]);
      failed := podFailed || err.Some?;
      SweepDrops(items, i, w0, w, Now(), cleaned, failed);
      if tidy {
        SweepOneMore(w0, w, Chosen(items[..i], doomed), items[i].stackID);
      }
    }

    /** The next stack of a listing: dropped when doomed, passed over otherwise. */
    method SweepEntry(items: seq<Stack>, i: nat, doomed: Stack -> bool, ghost w0: World, ghost tidy: bool, ghost cleaned: nat)
      returns (target: bool, failed: bool)
      requires repo.Valid() && i < |items| && (tidy ==> faults.quiet)
      requires SweepCounts(items, i, w0, Now(), cleaned) && SweptSoFar(cfg.namespace, tidy, items, i, doomed, w0, Now())
      modifies repo, k8s`pods, k8s`services
      ensures repo.Valid() && repo.jobs == old(repo.jobs)
      ensures (failed ==> target) && (tidy ==> !failed)
      ensures SweepCounts(items, i + 1, w0, Now(), cleaned + if target && !failed then 1 else 0)
      ensures SweptSoFar(cfg.namespace, tidy, items, i + 1, doomed, w0, Now())
    {
      target, failed := doomed(items[i]), false;
      if target {
        failed := SweepNext(items, i, doomed, w0, tidy, cleaned);
      } else {
        SweepPasses(cfg.namespace, tidy, items, i, doomed, w0, Now(), cleaned);
      }
    }

    /** Drops the listed stacks that are doomed; every target is either cleaned or a failure. */
    method SweepStacks(items: seq<Stack>, doomed: Stack -> bool, ghost w0: World)
      returns (targets: nat, cleaned: nat, failures: nat, ghost w: World)
      requires repo.Valid() && w0 == Now()
      modifies repo, k8s`pods, k8s`services
      ensures repo.Valid() && repo.jobs == old(repo.jobs) && w == Now()
      ensures targets == cleaned + failures
      ensures faults.quiet && WellNamed(cfg.namespace, w0) && IsView(items, w0.stacks, w0.stacks.Keys) ==>
        failures == 0 && SweptAway(w0, w, Chosen(items, doomed)) && WellNamed(cfg.namespace, w)
      ensures Shrinks(w0, w)
      ensures Present(items, w0.stacks) ==> |w.stacks| + cleaned <= |w0.stacks|
    {
      targets, cleaned, failures := 0, 0, 0;
      w := w0;
      ghost var tidy := faults.quiet && WellNamed(cfg.namespace, w0) && IsView(items, w0.stacks, w0.stacks.Keys);
      SweepStarts(cfg.namespace, items, doomed, w0, tidy);
      for i := 0 to |items|
        invariant repo.Valid() && repo.jobs == old(repo.jobs) && w == Now()
        invariant targets == cleaned + failures && (tidy ==> failures == 0)
        invariant SweepCounts(items, i, w0, w, cleaned) && SweptSoFar(cfg.namespace, tidy, items, i, doomed, w0, w)
      {
        var target, failed := SweepEntry(items, i, doomed, w0, tidy, cleaned);
        targets := targets + if target then 1 else 0;
        cleaned := cleaned + if target && !failed then 1 else 0;
        failures := failures + if failed then 1 else 0;
        w := Now();
      }
      SweepEnds(cfg.namespace, tidy, items, doomed, w0, w);
    }

    /** One listed pod: passed over, or deleted. */
    method SweepPod(name: string, pod: Pod, registered: set<string>, now: Time) returns (target: bool, failed: bool)
      modifies k8s`pods, k8s`services
      ensures k8s.services == old(k8s.services)
      ensures k8s.pods == old(k8s.pods) - {Ref(cfg.namespace, name)} || (k8s.pods == old(k8s.pods) && (!target || failed))
      ensures !target ==> !failed && k8s.pods == old(k8s.pods)
      ensures target ==> name !in registered && !InGrace(pod, now) && !Owned(pod, name, repo.stacks)
      ensures faults.quiet ==> !failed && (target <==> name !in registered && !InGrace(pod, now) && !Owned(pod, name, repo.stacks))
    {
      if name in registered || InGrace(pod, now) {
        return false, false;
      }
      if pod.stackID != "" {
        var err := faults.Next(false);
        if err.Some? {
          return false, false;
        }
        var found := repo.Get(pod.stackID);
        if found.Some? && found.value.podID == name {
          return false, false;
        }
      }
      var err := k8s.DeletePodAndService(cfg.namespace, name, "", false);
      return true, err.Some?;
    }

    /** One more listed pod, with those of `left` still to come; `w0` is the world before the first one. */
    method SweepNextPod(name: string, pods: map<string, Pod>, registered: set<string>, now: Time,
                        ghost left: set<string>, ghost w0: World, ghost cleaned: nat) returns (target: bool, failed: bool)
      requires Listed(cfg.namespace, pods, w0.pods) && name in left && left <= pods.Keys && w0.stacks == repo.stacks
      requires OrphansSoFar(cfg.namespace, faults.quiet, registered, pods, left, w0, k8s.pods, cleaned, now)
      modifies k8s`pods, k8s`services
      ensures k8s.services == old(k8s.services) && (failed ==> target) && (faults.quiet ==> !failed)
      ensures OrphansSoFar(cfg.namespace, faults.quiet, registered, pods, left - {name}, w0, k8s.pods,
                           cleaned + (if target && !failed then 1 else 0), now)
    {
      ghost var before := k8s.pods;
      target, failed := SweepPod(name, pods[name], registered, now);
      OrphansNext(cfg.namespace, faults.quiet, registered, pods, left, name, w0, before, k8s.pods, cleaned, target, failed, now);
    }

    /** `w0` is the world it begins in. */
    method SweepOrphans(registered: set<string>, pods: map<string, Pod>, now: Time, ghost w0: World)
      returns (targets: nat, cleaned: nat, failures: nat)
      requires repo.Valid() && w0 == Now() && Listed(cfg.namespace, pods, w0.pods)
      modifies k8s`pods, k8s`services
      ensures repo.Valid() && targets == cleaned + failures
      ensures faults.quiet ==> failures == 0
      ensures Now() == w0.(pods := k8s.pods)
      ensures faults.quiet ==> k8s.pods == w0.pods - Unspared(cfg.namespace, w0, registered, pods.Keys, now)
      ensures |k8s.pods| + cleaned <= |w0.pods|
    {
      targets, cleaned, failures := 0, 0, 0;
      var left := pods.Keys;
      OrphansStart(cfg.namespace, faults.quiet, registered, pods, w0, now);
      while left != {}
        invariant left <= pods.Keys
        invariant targets == cleaned + failures && (faults.quiet ==> failures == 0)
        invariant k8s.services == w0.services
        invariant OrphansSoFar(cfg.namespace, faults.quiet, registered, pods, left, w0, k8s.pods, cleaned, now)
        decreases left
      {
        var name :| name in left;
        var target, failed := SweepNextPod(name, pods, registered, now, left, w0, cleaned);
        left := left - {name};
        targets := targets + if target then 1 else 0;
        cleaned := cleaned + if target && !failed then 1 else 0;
        failures := failures + if failed then 1 else 0;
      }
      assert pods.Keys - left == pods.Keys;
    }

    /** Drops the listed stacks that have expired. */
    method SweepExpired(items: seq<Stack>, now: Time, ghost w0: World)
      returns (targets: nat, cleaned: nat, failures: nat, ghost w: World)
      requires repo.Valid() && w0 == Now()
      modifies repo, k8s`pods, k8s`services
      ensures repo.Valid() && repo.jobs == old(repo.jobs) && w == Now()
      ensures targets == cleaned + failures
      ensures faults.quiet && WellNamed(cfg.namespace, w0) && IsView(items, w0.stacks, w0.stacks.Keys) ==>
        failures == 0 && SweptAway(w0, w, ExpiredIn(w0, now)) && WellNamed(cfg.namespace, w)
      ensures Shrinks(w0, w)
      ensures Present(items, w0.stacks) ==> |w.stacks| + cleaned <= |w0.stacks|
    {
      targets, cleaned, failures, w := SweepStacks(items, (st: Stack) => Expired(st, now), w0);
      if IsView(items, w0.stacks, w0.stacks.Keys) {
        ChosenExpired(items, w0, now);
      }
    }

    /** Drops the stacks whose pod or service is missing from listings taken after `stacks` was. */
    method SweepMissing(stacks: seq<Stack>, ghost w0: World)
      returns (targets: nat, cleaned: nat, failures: nat, scanErrors: nat, ghost pods: set<string>, ghost services: set<string>, ghost w: World)
      requires repo.Valid() && w0 == Now()
      modifies repo, k8s`pods, k8s`services
      ensures repo.Valid() && repo.jobs == old(repo.jobs) && w == Now()
      ensures targets + scanErrors == cleaned + failures && cleaned <= targets
      ensures faults.quiet ==>
        && (forall name :: name in pods <==> name != "" && Ref(cfg.namespace, name) in w0.pods)
        && (forall name :: name in services <==> name != "" && Ref(cfg.namespace, name) in w0.services)
      ensures faults.quiet && WellNamed(cfg.namespace, w0) && IsView(stacks, w0.stacks, w0.stacks.Keys) ==>
        failures == 0 && SweptAway(w0, w, MissingIn(w0, pods, services)) && WellNamed(cfg.namespace, w)
      ensures Shrinks(w0, w)
      ensures Present(stacks, w0.stacks) ==> |w.stacks| + cleaned <= |w0.stacks|
    {
      targets, cleaned, failures, scanErrors := 0, 0, 0, 0;
      var podNames := k8s.ListPods(cfg.namespace);
      if podNames.Err? {
        scanErrors, failures := scanErrors + 1, failures + 1;
      }
      var serviceNames := k8s.ListServices(cfg.namespace);
      if serviceNames.Err? {
        scanErrors, failures := scanErrors + 1, failures + 1;
      }
      pods, services, w := {}, {}, w0;
      if podNames.Ok? && serviceNames.Ok? {
        pods, services := podNames.value, serviceNames.value;
        var failed: nat;
        targets, cleaned, failed, w := SweepStacks(stacks, (st: Stack) => Unlisted(st, podNames.value, serviceNames.value), w0);
        failures := failures + failed;
        if IsView(stacks, w0.stacks, w0.stacks.Keys) {
          ChosenMissing(stacks, w0, pods, services);
        }
      }
    }

    /** Lists the stacks once more, and deletes old pods that none of them registers. */
    method SweepUnregistered(now: Time, ghost w0: World)
      returns (targets: nat, cleaned: nat, failures: nat, scanErrors: nat, ghost listed: World, ghost w: World)
      requires repo.Valid() && w0 == Now()
      modifies repo, k8s`pods, k8s`services
      ensures repo.Valid() && repo.jobs == old(repo.jobs) && w == Now()
      ensures targets + scanErrors == cleaned + failures && cleaned <= targets
      ensures faults.quiet && WellNamed(cfg.namespace, w0) ==>
        failures == 0 && RefreshedWorld(w0, listed, k8s.nodes, w0.stacks.Keys) && OrphansGone(cfg.namespace, listed, w, now)
      ensures Shrinks(w0, w) && |w.pods| + cleaned <= |w0.pods|
    {
      targets, cleaned, failures, scanErrors := 0, 0, 0, 0;
      var stacks;
      stacks, listed := ListAll(w0);
      w := listed;
      if stacks.Err? {
        return 0, 0, 1, 1, listed, w;
      }
      ghost var tidy := faults.quiet && WellNamed(cfg.namespace, w0);
      var registered := set st | st in stacks.value && st.podID != "" :: st.podID;
      var pods := k8s.ListPodsWithCreation(cfg.namespace);
      if pods.Err? {
        return 0, 0, 1, 1, listed, w;
      }
      targets, cleaned, failures := SweepOrphans(registered, pods.value, now, listed);
      w := listed.(pods := k8s.pods);
      UnregisteredConcludes(cfg.namespace, tidy, faults.quiet, w0, listed, w, stacks.value, registered, pods.value, k8s.nodes, now);
    }

    /** What follows the second listing, when it succeeds: missing resources, then orphan pods. */
    method SweepLeftovers(remaining: seq<Stack>, now: Time, ghost w3: World)
      returns (missing: nat, orphans: nat, cleaned: nat, failures: nat, scanErrors: nat, orphanErrors: nat,
               ghost pods: set<string>, ghost services: set<string>, ghost w4: World, ghost w5: World, ghost w6: World)
      requires repo.Valid() && w3 == Now() && Present(remaining, w3.stacks)
      modifies repo, k8s`pods, k8s`services
      ensures repo.Valid() && repo.jobs == old(repo.jobs) && w6 == Now()
      ensures missing + orphans + scanErrors + orphanErrors == cleaned + failures && cleaned <= missing + orphans
      ensures Shrinks(w3, w6) && |w6.stacks| + |w6.pods| + cleaned <= |w3.stacks| + |w3.pods|
      ensures faults.quiet ==>
        && (forall name :: name in pods <==> name != "" && Ref(cfg.namespace, name) in w3.pods)
        && (forall name :: name in services <==> name != "" && Ref(cfg.namespace, name) in w3.services)
      ensures faults.quiet && WellNamed(cfg.namespace, w3) && IsView(remaining, w3.stacks, w3.stacks.Keys) ==>
        && failures == 0 && SweptAway(w3, w4, MissingIn(w3, pods, services))
        && RefreshedWorld(w4, w5, k8s.nodes, w4.stacks.Keys) && OrphansGone(cfg.namespace, w5, w6, now)
    {
      var cleaned1, failures1, cleaned2, failures2;
      missing, cleaned1, failures1, scanErrors, pods, services, w4 := SweepMissing(remaining, w3);
      orphans, cleaned2, failures2, orphanErrors, w5, w6 := SweepUnregistered(now, w4);
      cleaned, failures := cleaned1 + cleaned2, failures1 + failures2;
    }

    /** The phases of a cleanup cycle, from the world it begins in to the one it ends in. */
    method RunCycle(now: Time, ghost w0: World) returns (r: Report, ghost w: World)
      requires repo.Valid() && w0 == Now()
      modifies repo, k8s`pods, k8s`services
      ensures repo.Valid() && repo.jobs == old(repo.jobs) && w == Now()
      ensures Accounts(r, w0, w)
      ensures faults.quiet && WellNamed(cfg.namespace, w0) ==> r.listed && r.failures == 0 && Converged(cfg.namespace, w0, w, k8s.nodes, now)
    {
      ghost var tidy := faults.quiet && WellNamed(cfg.namespace, w0);
      var items, w1 := ListAll(w0);
      if items.Err? {
        return Report(false, 0, 0, 0, 0, 0, 1, 0, 0), w1;
      }
      var expired, cleaned, failures, w2 := SweepExpired(items.value, now, w1);
      var remaining, w3 := ListAll(w2);
      if remaining.Err? {
        return Report(true, |items.value|, expired, 0, 0, cleaned, failures + 1, 0, 1), w3;
      }
      var missing, orphans, more, failed, scanErrors, orphanErrors, pods, services, w4, w5, w6 :=
        SweepLeftovers(remaining.value, now, w3);
      CycleConcludes(cfg.namespace, tidy, w0, w1, w2, w3, w4, w5, w6, pods, services, k8s.nodes, now);
      return Report(true, |items.value|, expired, missing, orphans, cleaned + more, failures + failed, scanErrors, orphanErrors), w6;
    }

    /**
     One cleanup cycle. Whatever fails, the counters balance, and every success counted is a
     record or a pod gone; alone and without faults, the world converges.
     */
    method CleanupExpiredAndOrphaned(now: Time) returns (r: Report)
      requires repo.Valid()
      modifies repo, k8s`pods, k8s`services
      ensures repo.Valid() && repo.jobs == old(repo.jobs)
      ensures Accounts(r, old(Now()), Now())
      ensures faults.quiet && WellNamed(cfg.namespace, old(Now())) ==>
        r.listed && r.failures == 0 && Converged(cfg.namespace, old(Now()), Now(), k8s.nodes, now)
    {
      ghost var w: World;
      r, w := RunCycle(now, Now());
    }
  }

  function ErrorText(e: Error): string {
    match e
    case Failure(message) => message
    case PortAllocated => "provided port is already allocated"
    case _ => "repository error"
  }

  /** No job but this one differs. */
  ghost predicate OnlyJob(before: map<string, BatchDeleteJob>, after: map<string, BatchDeleteJob>, jobID: string) {
    after == before || (jobID in before && jobID in after && after == before[jobID := after[jobID]])
  }

  lemma OnlyJobTwice(a: map<string, BatchDeleteJob>, b: map<string, BatchDeleteJob>, c: map<string, BatchDeleteJob>, jobID: string)
    requires OnlyJob(a, b, jobID) && OnlyJob(b, c, jobID)
    ensures OnlyJob(a, c, jobID)
  {
    if jobID in a && jobID in b && jobID in c {
      assert a[jobID := b[jobID]][jobID := c[jobID]] == a[jobID := c[jobID]];
    }
  }

  /** Only the job being worked on changes, and without faults it is kept as last written. */
  ghost predicate JobKept(quiet: bool, before: map<string, BatchDeleteJob>, after: map<string, BatchDeleteJob>, first: BatchDeleteJob, job: BatchDeleteJob) {
    && job.jobID == first.jobID
    && OnlyJob(before, after, first.jobID)
    && (quiet && first.jobID in before && before[first.jobID] == first ==> after == before[first.jobID := job])
  }

  lemma JobKeptAgain(quiet: bool, a: map<string, BatchDeleteJob>, b: map<string, BatchDeleteJob>, c: map<string, BatchDeleteJob>,
                     first: BatchDeleteJob, job: BatchDeleteJob, next: BatchDeleteJob)
    requires JobKept(quiet, a, b, first, job) && OnlyJob(b, c, first.jobID) && next.jobID == job.jobID
    requires quiet && first.jobID in b ==> c == b[first.jobID := next]
    ensures JobKept(quiet, a, c, first, next)
  {
    OnlyJobTwice(a, b, c, first.jobID);
    if quiet && first.jobID in a && a[first.jobID] == first {
      assert a[first.jobID := job][first.jobID := next] == a[first.jobID := next];
    }
  }

  function LiveAmong(ids: seq<string>, stacks: map<string, Stack>): set<string> {
    set id | id in ids && id in stacks
  }

  lemma DeleteOneMore(namespace: string, w0: World, w: World, ids: seq<string>, i: nat)
    requires i < |ids| && WellNamed(namespace, w0) && SweptAway(w0, w, LiveAmong(ids[..i], w0.stacks))
    ensures ids[i] in w.stacks <==> ids[i] in w0.stacks && ids[i] !in LiveAmong(ids[..i], w0.stacks)
    ensures ids[i] in w.stacks ==> w.stacks[ids[i]].serviceName != ""
    ensures LiveAmong(ids[..i + 1], w0.stacks) ==
              if ids[i] in w.stacks then LiveAmong(ids[..i], w0.stacks) + {ids[i]} else LiveAmong(ids[..i], w0.stacks)
  {
    assert ids[..i + 1] == ids[..i] + [ids[i]];
  }

  /** Deleting the next requested stack extends the set of those gone by it, if it was live. */
  lemma DeletedOneMore(namespace: string, w0: World, w: World, w': World, ids: seq<string>, i: nat)
    requires i < |ids| && WellNamed(namespace, w0) && SweptAway(w0, w, LiveAmong(ids[..i], w0.stacks)) && Agree(w.stacks, w.ports)
    requires w' == if ids[i] in w.stacks then Without(w, ids[i], true) else w
    ensures SweptAway(w0, w', LiveAmong(ids[..i + 1], w0.stacks))
    ensures |LiveAmong(ids[..i + 1], w0.stacks)| == |LiveAmong(ids[..i], w0.stacks)| + (if ids[i] in w.stacks then 1 else 0)
  {
    DeleteOneMore(namespace, w0, w, ids, i);
    if ids[i] in w.stacks {
      SweepOneMore(w0, w, LiveAmong(ids[..i], w0.stacks), ids[i]);
    }
  }

  /** What the first `i` deletes of a batch have come to: each one counted is a stack gone. */
  ghost predicate DeletedSoFar(namespace: string, tidy: bool, ids: seq<string>, i: nat, w0: World, w: World, deleted: int)
    requires i <= |ids|
  {
    && |w.stacks| + deleted == |w0.stacks|
    && (tidy ==>
          && WellNamed(namespace, w0)
          && SweptAway(w0, w, LiveAmong(ids[..i], w0.stacks)) && |LiveAmong(ids[..i], w0.stacks)| == deleted)
  }

  lemma DeletionStarts(namespace: string, tidy: bool, ids: seq<string>, w0: World)
    requires Agree(w0.stacks, w0.ports) && (tidy ==> WellNamed(namespace, w0))
    ensures DeletedSoFar(namespace, tidy, ids, 0, w0, w0, 0)
  {
    NothingPruned(w0);
    assert LiveAmong(ids[..0], w0.stacks) == {};
  }

  lemma DeletionEnds(namespace: string, tidy: bool, ids: seq<string>, w0: World, w: World, deleted: int)
    requires DeletedSoFar(namespace, tidy, ids, |ids|, w0, w, deleted)
    ensures |w.stacks| + deleted == |w0.stacks|
    ensures tidy ==> SweptAway(w0, w, LiveAmong(ids, w0.stacks)) && deleted == |LiveAmong(ids, w0.stacks)|
  {
    assert ids[..|ids|] == ids;
  }

  lemma DeletedNext(namespace: string, tidy: bool, ids: seq<string>, i: nat, w0: World, w: World, w': World, deleted: int, outcome: Outcome)
    requires i < |ids| && Touches(w, w', ids[i]) && (outcome.Removed? <==> ids[i] in w.stacks && ids[i] !in w'.stacks)
    requires DeletedSoFar(namespace, tidy, ids, i, w0, w, deleted - if outcome.Removed? then 1 else 0)
    requires tidy ==> Agree(w.stacks, w.ports) && w' == if ids[i] in w.stacks then Without(w, ids[i], true) else w
    ensures DeletedSoFar(namespace, tidy, ids, i + 1, w0, w', deleted)
  {
    TouchCounts(w, w', ids[i]);
    if tidy { DeletedOneMore(namespace, w0, w, w', ids, i); }
  }

  lemma ListingIDs(items: seq<Stack>, stacks: map<string, Stack>)
    requires IsListing(items, stacks) && forall id :: id in stacks ==> stacks[id].stackID == id
    ensures IDs(items) == stacks.Keys
  {
    forall id | id in stacks ensures id in IDs(items) {
      assert stacks[id] in items;
    }
  }

  lemma FreshEntry(items: seq<Stack>, i: nat)
    requires i < |items| && forall j, k :: 0 <= j < k < |items| ==> items[j].stackID != items[k].stackID
    ensures items[i].stackID !in IDs(items[..i])
    ensures IDs(items[..i + 1]) == IDs(items[..i]) + {items[i].stackID}
    ensures items[i].stackID in IDs(items)
  {
    assert items[..i + 1] == items[..i] + [items[i]];
  }

  /** The record of a new stack, as the caller gets it back. */
  ghost predicate Provisions(cfg: Config, valid: ValidationResult, stackID: string, podName: string, now: Time, st: Stack) {
    && st.stackID == stackID && st.namespace == cfg.namespace
    && st.podID == podName && st.serviceName == ServiceName(stackID)
    && st.targetPorts == valid.targetPorts && st.podSpec == valid.sanitized
    && st.requestedMilli == valid.requestedMilli && st.requestedBytes == valid.requestedBytes
    && st.createdAt == st.updatedAt == now && st.ttlExpiresAt == now + cfg.stackTTL
  }

  /** The repository gains exactly this stack, with distinct ports of the range that were free. */
  ghost predicate RecordsStack(cfg: Config, before: Mem, after: Mem, st: Stack) {
    && st.stackID !in before.stacks
    && Maps(cfg, before.ports, st.targetPorts, st.ports)
    && after == before.(stacks := before.stacks[st.stackID := st], ports := Claim(before.ports, PortSet(st), st.stackID))
  }

  /** The ports of the stack have been reserved, and nothing else has changed. */
  ghost predicate Reserves(cfg: Config, before: Mem, after: Mem, st: Stack) {
    && Maps(cfg, before.ports, st.targetPorts, st.ports)
    && after == before.(ports := Claim(before.ports, PortsIn(st.ports), ""))
  }

  lemma CommitAfterReserve(cfg: Config, before: Mem, reserved: Mem, st: Stack)
    requires Reserves(cfg, before, reserved, st) && Commits(reserved, st)
    ensures RecordsStack(cfg, before, AfterCreate(reserved, st), st)
  {
    assert PortSet(st) == PortsIn(st.ports);
    assert Claim(reserved.ports, PortSet(st), st.stackID) == Claim(before.ports, PortSet(st), st.stackID);
  }

  /** The cluster gains exactly the pod of this stack and a service on its ports. */
  ghost predicate Deploys(pods: map<Ref, Pod>, pods': map<Ref, Pod>, services: map<Ref, Kubernetes.Service>, services': map<Ref, Kubernetes.Service>, st: Stack) {
    && AddsPod(pods, pods', Ref(st.namespace, st.podID), st.stackID, Provisioned(st.podID, st.serviceName, st.nodeID, st.status))
    && Ref(st.namespace, st.serviceName) !in services
    && services' == services[Ref(st.namespace, st.serviceName) := Kubernetes.Service(st.stackID, ServicePorts(st.ports))]
  }

  lemma Undeployed(pods: map<Ref, Pod>, pods': map<Ref, Pod>, services: map<Ref, Kubernetes.Service>, services': map<Ref, Kubernetes.Service>, st: Stack)
    requires Deploys(pods, pods', services, services', st)
    ensures pods' - {Ref(st.namespace, st.podID)} == pods && services' - {Ref(st.namespace, st.serviceName)} == services
  {
  }

  lemma SubsetSize(a: set<int>, b: set<int>)
    requires a <= b
    ensures |a| <= |b| && |b - a| == |b| - |a|
  {
    assert b == a + (b - a);
  }

  lemma PortsInNodePorts(mappings: seq<PortMapping>)
    ensures Elements(NodePorts(mappings)) == PortsIn(mappings)
  {
    forall p ensures p in PortsIn(mappings) <==> p in NodePorts(mappings) {
      if p in PortsIn(mappings) { var i :| 0 <= i < |mappings| && mappings[i].nodePort == p; assert NodePorts(mappings)[i] == p; }
      if p in NodePorts(mappings) { var i :| 0 <= i < |mappings| && NodePorts(mappings)[i] == p; }
    }
  }

  lemma FreeAfterClaim(cfg: Config, before: map<int, string>, taken: set<int>)
    ensures FreePorts(cfg, Claim(before, taken, "")) == FreePorts(cfg, before) - taken
  {
  }

  /** Reserved ports are distinct and were free; what is free now is the rest. */
  lemma PortsAreFree(cfg: Config, before: map<int, string>, targets: seq<PortSpec>, mappings: seq<PortMapping>)
    requires Maps(cfg, before, targets, mappings)
    ensures PortsIn(mappings) <= FreePorts(cfg, before) && |PortsIn(mappings)| == |mappings|
    ensures FreePorts(cfg, Claim(before, PortsIn(mappings), "")) == FreePorts(cfg, before) - PortsIn(mappings)
    ensures |FreePorts(cfg, Claim(before, PortsIn(mappings), ""))| == |FreePorts(cfg, before)| - |mappings| >= 0
  {
    PortsInNodePorts(mappings);
    DistinctCount(NodePorts(mappings), PortsIn(mappings));
    FreeAfterClaim(cfg, before, PortsIn(mappings));
    SubsetSize(PortsIn(mappings), FreePorts(cfg, before));
  }

  lemma Unclaimed(before: map<int, string>, taken: set<int>)
    requires taken !! before.Keys
    ensures Claim(before, taken, "") - taken == before
  {
  }

  function Mapping(target: PortSpec, port: int): PortMapping {
    PortMapping(target.containerPort, target.protocol, port)
  }

  lemma OnePortMore(mappings: seq<PortMapping>, m: PortMapping)
    ensures PortsIn(mappings + [m]) == PortsIn(mappings) + {m.nodePort}
    ensures NodePorts(mappings + [m]) == NodePorts(mappings) + [m.nodePort]
  {
    var more := mappings + [m];
    assert more[|mappings|] == m;
    forall p | p in PortsIn(mappings) ensures p in PortsIn(more) {
      var j :| 0 <= j < |mappings| && mappings[j].nodePort == p;
      assert more[j].nodePort == p;
    }
  }

  lemma OneMore(cfg: Config, before: map<int, string>, targets: seq<PortSpec>, mappings: seq<PortMapping>, port: int)
    requires |mappings| < |targets| && Maps(cfg, before, targets[..|mappings|], mappings)
    requires port in FreePorts(cfg, Claim(before, PortsIn(mappings), ""))
    ensures var more := mappings + [Mapping(targets[|mappings|], port)];
            && Maps(cfg, before, targets[..|mappings| + 1], more)
            && PortsIn(more) == PortsIn(mappings) + {port}
            && NodePorts(more) == NodePorts(mappings) + [port]
            && Claim(before, PortsIn(more), "") == Claim(before, PortsIn(mappings), "")[port := ""]
  {
    OnePortMore(mappings, Mapping(targets[|mappings|], port));
    forall i | 0 <= i < |mappings| ensures mappings[i].nodePort != port {
      assert mappings[i].nodePort in PortsIn(mappings);
    }
  }
}
