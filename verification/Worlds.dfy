/**
 What the service manages, as one value: the records and ports of the repository, and the
 pods and services of the cluster; and what removing a set of stacks does to it.
 */
module Worlds {
  import opened Types
  import opened Repository
  import opened Kubernetes

  datatype World = World(
    stacks: map<string, Stack>,
    ports: map<int, string>,
    pods: map<Ref, Pod>,
    services: map<Ref, Kubernetes.Service>)

  function PodOf(st: Stack): Ref {
    Ref(st.namespace, st.podID)
  }

  function ServiceOf(st: Stack): Ref {
    Ref(st.namespace, st.serviceName)
  }

  function PodsOf(w: World, ids: set<string>): set<Ref> {
    set id | id in ids && id in w.stacks :: PodOf(w.stacks[id])
  }

  function ServicesOf(w: World, ids: set<string>): set<Ref> {
    set id | id in ids && id in w.stacks :: ServiceOf(w.stacks[id])
  }

  /** The same stack, but for what a status refresh may change. */
  predicate SameStack(a: Stack, b: Stack) {
    b == a.(status := b.status, nodeID := b.nodeID, updatedAt := b.updatedAt, nodePublicIP := b.nodePublicIP)
  }

  /** The names `Create` gives: one namespace, and a pod and a service of its own for every stack. */
  ghost predicate WellNamed(namespace: string, w: World) {
    && (forall id :: id in w.stacks ==>
          w.stacks[id].namespace == namespace && w.stacks[id].podID != "" && w.stacks[id].serviceName != "")
    && (forall a, b :: a in w.stacks && b in w.stacks && a != b ==>
          w.stacks[a].podID != w.stacks[b].podID && w.stacks[a].serviceName != w.stacks[b].serviceName)
  }

  /**
   `w` is `w0` without the stacks `gone`, their ports and their pods, and without the
   services of `swept`; nothing else differs but refreshed fields.
   */
  ghost predicate Pruned(w0: World, w: World, gone: set<string>, swept: set<string>) {
    && swept <= gone <= w0.stacks.Keys
    && w.stacks.Keys == w0.stacks.Keys - gone
    && (forall id :: id in w.stacks ==> SameStack(w0.stacks[id], w.stacks[id]))
    && w.ports == (map p | p in w0.ports && w0.ports[p] !in gone :: w0.ports[p])
    && w.pods == w0.pods - PodsOf(w0, gone)
    && w.services == w0.services - ServicesOf(w0, swept)
  }

  lemma NothingPruned(w: World)
    requires Agree(w.stacks, w.ports)
    ensures Pruned(w, w, {}, {})
  {
  }

  /** `w` after a stack has lost its record, its ports, its pod and, when swept, its service. */
  function Without(w: World, id: string, sweep: bool): World
    requires id in w.stacks
  {
    var st := w.stacks[id];
    World(w.stacks - {id}, w.ports - PortSet(st), w.pods - {PodOf(st)},
          if sweep then w.services - {ServiceOf(st)} else w.services)
  }

  lemma PortsWithout(w0: World, w: World, gone: set<string>, id: string)
    requires Agree(w.stacks, w.ports) && id in w.stacks
    requires w.ports == (map p | p in w0.ports && w0.ports[p] !in gone :: w0.ports[p])
    ensures w.ports - PortSet(w.stacks[id]) == (map p | p in w0.ports && w0.ports[p] !in gone + {id} :: w0.ports[p])
  {
    forall p ensures p in w.ports && p !in PortSet(w.stacks[id]) <==> p in w0.ports && w0.ports[p] !in gone + {id} {
      if p in w.ports && w.ports[p] == id { assert p in PortSet(w.stacks[id]); }
    }
  }

  lemma ObjectsWithout(w0: World, w: World, gone: set<string>, id: string)
    requires id in w0.stacks && id in w.stacks && SameStack(w0.stacks[id], w.stacks[id])
    ensures PodsOf(w0, gone + {id}) == PodsOf(w0, gone) + {PodOf(w.stacks[id])}
    ensures ServicesOf(w0, gone + {id}) == ServicesOf(w0, gone) + {ServiceOf(w.stacks[id])}
  {
    assert PodOf(w.stacks[id]) == PodOf(w0.stacks[id]) && ServiceOf(w.stacks[id]) == ServiceOf(w0.stacks[id]);
  }

  lemma ObjectsOnce(w0: World, w: World, gone: set<string>, swept: set<string>, id: string, sweep: bool)
    requires Pruned(w0, w, gone, swept) && id in w.stacks
    ensures Without(w, id, sweep).pods == w0.pods - PodsOf(w0, gone + {id})
    ensures Without(w, id, sweep).services == w0.services - ServicesOf(w0, if sweep then swept + {id} else swept)
  {
    ObjectsWithout(w0, w, gone, id);
    ObjectsWithout(w0, w, swept, id);
  }

  lemma PruneOne(w0: World, w: World, gone: set<string>, swept: set<string>, id: string, sweep: bool)
    requires Agree(w.stacks, w.ports) && Pruned(w0, w, gone, swept) && id in w.stacks
    ensures Pruned(w0, Without(w, id, sweep), gone + {id}, if sweep then swept + {id} else swept)
  {
    PortsWithout(w0, w, gone, id);
    ObjectsOnce(w0, w, gone, swept, id, sweep);
  }

  /** Refreshing a record that stays removes nothing. */
  lemma PruneNone(w0: World, w: World, gone: set<string>, swept: set<string>, id: string, w': World)
    requires Pruned(w0, w, gone, swept) && id in w.stacks && id in w'.stacks
    requires w' == w.(stacks := w.stacks[id := w'.stacks[id]]) && SameStack(w.stacks[id], w'.stacks[id])
    ensures Pruned(w0, w', gone, swept)
  {
  }

  lemma ObjectsOfBoth(w0: World, w1: World, gone: set<string>, gone': set<string>)
    requires gone <= w0.stacks.Keys && gone' <= w1.stacks.Keys <= w0.stacks.Keys
    requires forall id :: id in w1.stacks ==> SameStack(w0.stacks[id], w1.stacks[id])
    ensures PodsOf(w0, gone + gone') == PodsOf(w0, gone) + PodsOf(w1, gone')
    ensures ServicesOf(w0, gone + gone') == ServicesOf(w0, gone) + ServicesOf(w1, gone')
  {
    forall id | id in w1.stacks ensures PodOf(w1.stacks[id]) == PodOf(w0.stacks[id]) && ServiceOf(w1.stacks[id]) == ServiceOf(w0.stacks[id]) {
      assert SameStack(w0.stacks[id], w1.stacks[id]);
    }
  }

  lemma ObjectsTwice(w0: World, w1: World, w2: World, gone: set<string>, swept: set<string>, gone': set<string>, swept': set<string>)
    requires Pruned(w0, w1, gone, swept) && Pruned(w1, w2, gone', swept')
    ensures w2.pods == w0.pods - PodsOf(w0, gone + gone')
    ensures w2.services == w0.services - ServicesOf(w0, swept + swept')
  {
    ObjectsOfBoth(w0, w1, gone, gone');
    ObjectsOfBoth(w0, w1, swept, swept');
  }

  lemma PortsTwice(ports: map<int, string>, gone: set<string>, gone': set<string>, once: map<int, string>, twice: map<int, string>)
    requires once == (map p | p in ports && ports[p] !in gone :: ports[p]) && twice == (map p | p in once && once[p] !in gone' :: once[p])
    ensures twice == (map p | p in ports && ports[p] !in gone + gone' :: ports[p])
  {
  }

  /** Pruning twice is pruning once. */
  lemma PruneTwice(w0: World, w1: World, w2: World, gone: set<string>, swept: set<string>, gone': set<string>, swept': set<string>)
    requires Pruned(w0, w1, gone, swept) && Pruned(w1, w2, gone', swept')
    ensures Pruned(w0, w2, gone + gone', swept + swept')
  {
    PortsTwice(w0.ports, gone, gone', w1.ports, w2.ports);
    ObjectsTwice(w0, w1, w2, gone, swept, gone', swept');
    forall id | id in w2.stacks ensures SameStack(w0.stacks[id], w2.stacks[id]) {
      assert SameStack(w0.stacks[id], w1.stacks[id]) && SameStack(w1.stacks[id], w2.stacks[id]);
    }
  }

  // ---------- Viability ----------

  predicate NodeLive(nodes: map<string, Option<string>>, st: Stack) {
    st.nodeID != "" && st.nodeID in nodes
  }

  /** A refresh keeps the record. */
  predicate Viable(w: World, nodes: map<string, Option<string>>, st: Stack) {
    NodeLive(nodes, st) && PodOf(st) in w.pods && !w.pods[PodOf(st)].lost
  }

  /** A refresh that finds the pod missing on a live node leaves the service behind. */
  predicate Sweeps(w: World, nodes: map<string, Option<string>>, st: Stack) {
    !(NodeLive(nodes, st) && PodOf(st) !in w.pods)
  }

  /** What a refresh writes: the status of the pod, and its node when it has one. */
  predicate Refreshed(before: Stack, after: Stack, pod: Pod) {
    && after == before.(status := PodState(pod).0, nodeID := after.nodeID, updatedAt := after.updatedAt)
    && after.nodeID == if pod.nodeName != "" then pod.nodeName else before.nodeID
  }

  function Unviable(w: World, nodes: map<string, Option<string>>, ids: set<string>): set<string> {
    set id | id in ids && id in w.stacks && !Viable(w, nodes, w.stacks[id])
  }

  function Swept(w: World, nodes: map<string, Option<string>>, ids: set<string>): set<string> {
    set id | id in ids && id in w.stacks && !Viable(w, nodes, w.stacks[id]) && Sweeps(w, nodes, w.stacks[id])
  }

  /** Removing other stacks does not change whether this one is viable. */
  lemma ViabilityIsOwn(namespace: string, w0: World, w: World, gone: set<string>, swept: set<string>, nodes: map<string, Option<string>>, id: string)
    requires WellNamed(namespace, w0) && Pruned(w0, w, gone, swept) && id in w.stacks && w.stacks[id] == w0.stacks[id]
    ensures Viable(w, nodes, w.stacks[id]) <==> Viable(w0, nodes, w0.stacks[id])
    ensures Sweeps(w, nodes, w.stacks[id]) <==> Sweeps(w0, nodes, w0.stacks[id])
    ensures PodOf(w.stacks[id]) in w.pods <==> PodOf(w.stacks[id]) in w0.pods
    ensures PodOf(w.stacks[id]) in w.pods ==> w.pods[PodOf(w.stacks[id])] == w0.pods[PodOf(w.stacks[id])]
  {
    assert PodOf(w0.stacks[id]) !in PodsOf(w0, gone);
  }

  lemma PruneKeepsNames(namespace: string, w0: World, w: World, gone: set<string>, swept: set<string>)
    requires WellNamed(namespace, w0) && Pruned(w0, w, gone, swept)
    ensures WellNamed(namespace, w)
  {
    assert forall id :: id in w.stacks ==> SameStack(w0.stacks[id], w.stacks[id]);
  }

  // ---------- The result of listing ----------

  /** An entry of a listing: the identity and the node of a live record. */
  ghost predicate IsEntry(st: Stack, stacks: map<string, Stack>) {
    st.stackID in stacks && SameStack(stacks[st.stackID], st) && st.nodeID == stacks[st.stackID].nodeID
  }

  /** One entry for each live stack of `done`, and no other. */
  ghost predicate IsView(s: seq<Stack>, stacks: map<string, Stack>, done: set<string>) {
    && (forall i :: 0 <= i < |s| ==> IsEntry(s[i], stacks) && s[i].stackID in done)
    && (forall i, j :: 0 <= i < j < |s| ==> s[i].stackID != s[j].stackID)
    && (forall id :: id in stacks && id in done ==> id in IDs(s))
  }

  function IDs(s: seq<Stack>): set<string> {
    set st | st in s :: st.stackID
  }

  /** `w` is `w0` once the stacks `done` have been refreshed. */
  ghost predicate RefreshedWorld(w0: World, w: World, nodes: map<string, Option<string>>, done: set<string>) {
    && Pruned(w0, w, Unviable(w0, nodes, done), Swept(w0, nodes, done))
    && (forall id :: id in w.stacks && id !in done ==> w.stacks[id] == w0.stacks[id])
    && (forall id :: id in w.stacks && id in done ==>
          PodOf(w0.stacks[id]) in w0.pods && Refreshed(w0.stacks[id], w.stacks[id], w0.pods[PodOf(w0.stacks[id])]))
  }

  /** A fault-free refresh of a live stack: its record is updated, or it is removed. */
  ghost predicate AfterRefresh(w: World, w': World, nodes: map<string, Option<string>>, id: string)
    requires id in w.stacks
  {
    var st := w.stacks[id];
    if Viable(w, nodes, st) then
      && id in w'.stacks
      && w' == w.(stacks := w.stacks[id := w'.stacks[id]])
      && Refreshed(st, w'.stacks[id], w.pods[PodOf(st)])
    else w' == Without(w, id, Sweeps(w, nodes, st))
  }

  lemma RefreshOneMore(namespace: string, w0: World, w: World, nodes: map<string, Option<string>>, done: set<string>, id: string, w': World)
    requires WellNamed(namespace, w0) && Agree(w.stacks, w.ports) && RefreshedWorld(w0, w, nodes, done)
    requires id in w0.stacks && id in w.stacks && id !in done && AfterRefresh(w, w', nodes, id)
    ensures RefreshedWorld(w0, w', nodes, done + {id})
  {
    var gone, swept := Unviable(w0, nodes, done), Swept(w0, nodes, done);
    ViabilityIsOwn(namespace, w0, w, gone, swept, nodes, id);
    RefreshGrows(w0, nodes, done, id);
    if Viable(w, nodes, w.stacks[id]) {
      PruneNone(w0, w, gone, swept, id, w');
    } else {
      PruneOne(w0, w, gone, swept, id, Sweeps(w, nodes, w.stacks[id]));
    }
  }

  lemma RefreshGrows(w0: World, nodes: map<string, Option<string>>, done: set<string>, id: string)
    requires id in w0.stacks
    ensures Unviable(w0, nodes, done + {id}) ==
              if Viable(w0, nodes, w0.stacks[id]) then Unviable(w0, nodes, done) else Unviable(w0, nodes, done) + {id}
    ensures Swept(w0, nodes, done + {id}) ==
              if !Viable(w0, nodes, w0.stacks[id]) && Sweeps(w0, nodes, w0.stacks[id]) then Swept(w0, nodes, done) + {id}
              else Swept(w0, nodes, done)
  {
  }

  lemma ViewWithout(view: seq<Stack>, w: World, done: set<string>, id: string, sweep: bool)
    requires id in w.stacks && id !in done && IsView(view, w.stacks, done)
    ensures IsView(view, Without(w, id, sweep).stacks, done + {id})
  {
  }

  lemma ViewWith(view: seq<Stack>, w: World, done: set<string>, id: string, entry: Stack, stacks': map<string, Stack>)
    requires id in w.stacks && id !in done && IsView(view, w.stacks, done)
    requires id in stacks' && stacks' == w.stacks[id := stacks'[id]] && entry.stackID == id && IsEntry(entry, stacks')
    ensures IsView(view + [entry], stacks', done + {id})
  {
    var more := view + [entry];
    assert IDs(more) == IDs(view) + {id} by { assert more[|view|] == entry; }
    forall i | 0 <= i < |view| ensures more[i] == view[i] && IsEntry(more[i], stacks') {
      assert IsEntry(view[i], w.stacks) && view[i].stackID in done;
    }
  }

  lemma NothingRefreshed(w: World, nodes: map<string, Option<string>>)
    requires Agree(w.stacks, w.ports)
    ensures RefreshedWorld(w, w, nodes, {})
  {
    NothingPruned(w);
    assert Unviable(w, nodes, {}) == {} && Swept(w, nodes, {}) == {};
  }

  /** With the stacks `done` refreshed and read back, `view` holds those that remain. */
  ghost predicate ListedSoFar(namespace: string, w0: World, w: World, nodes: map<string, Option<string>>, done: set<string>, view: seq<Stack>) {
    WellNamed(namespace, w0) ==> RefreshedWorld(w0, w, nodes, done) && IsView(view, w.stacks, done)
  }

  lemma StillListed(namespace: string, w0: World, w: World, nodes: map<string, Option<string>>, done: set<string>, id: string, view: seq<Stack>)
    requires ListedSoFar(namespace, w0, w, nodes, done, view) && id in w0.stacks && id !in done
    ensures WellNamed(namespace, w0) ==> id in w.stacks && w.stacks[id] == w0.stacks[id] && w.stacks[id].serviceName != ""
  {
  }

  /** A stack refreshed and read back: no entry when the refresh removed it. */
  ghost predicate ReadBack(w: World, w': World, nodes: map<string, Option<string>>, id: string, entry: Option<Stack>) {
    && id in w.stacks
    && AfterRefresh(w, w', nodes, id)
    && (entry.Some? <==> Viable(w, nodes, w.stacks[id]))
    && (entry.Some? ==> entry.value.stackID == id && IsEntry(entry.value, w'.stacks))
  }

  /** One more stack of the listing refreshed and read back. */
  lemma ListOneMore(namespace: string, w0: World, w: World, w': World, nodes: map<string, Option<string>>, done: set<string>, id: string,
                    view: seq<Stack>, entry: Option<Stack>)
    requires Agree(w.stacks, w.ports) && ListedSoFar(namespace, w0, w, nodes, done, view) && id in w0.stacks && id !in done
    requires WellNamed(namespace, w0) ==> ReadBack(w, w', nodes, id, entry)
    ensures ListedSoFar(namespace, w0, w', nodes, done + {id}, if entry.Some? then view + [entry.value] else view)
  {
    if WellNamed(namespace, w0) {
      RefreshOneMore(namespace, w0, w, nodes, done, id, w');
      if entry.Some? {
        ViewWith(view, w, done, id, entry.value, w'.stacks);
      } else {
        ViewWithout(view, w, done, id, Sweeps(w, nodes, w.stacks[id]));
      }
    }
  }
}
