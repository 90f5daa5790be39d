/**
 What one fault-free cleanup cycle, run alone, makes of a world: which stacks, pods, ports
 and services remain, and that a second cycle finds nothing left to do.
 */
module Convergence {
  import opened Types
  import opened Repository
  import opened Kubernetes
  import opened Worlds

  type Nodes = map<string, Option<string>>

  const GRACE: Time := 120_000_000_000

  predicate Expired(st: Stack, now: Time) {
    st.ttlExpiresAt <= now
  }

  /** Created too recently to be taken for an orphan. A pod without a creation time is old. */
  predicate InGrace(pod: Pod, now: Time) {
    pod.createdAt.Some? && now - GRACE < pod.createdAt.value
  }

  /** Unexpired, on a live node, with a pod that is present and not lost, and with its service. */
  predicate Survives(w: World, nodes: Nodes, st: Stack, now: Time) {
    && !Expired(st, now)
    && Viable(w, nodes, st)
    && (w.pods[PodOf(st)].nodeName != "" ==> w.pods[PodOf(st)].nodeName in nodes)
    && ServiceOf(st) in w.services
  }

  function Doomed(w: World, nodes: Nodes, now: Time): set<string> {
    set id | id in w.stacks && !Survives(w, nodes, w.stacks[id], now)
  }

  /** The doomed stacks whose service goes too: all but those whose pod is missing on a live node. */
  function DoomedWithService(w: World, nodes: Nodes, now: Time): set<string> {
    set id | id in w.stacks && !Survives(w, nodes, w.stacks[id], now) && Sweeps(w, nodes, w.stacks[id])
  }

  /** The node of a record once refreshed. */
  function EffectiveNode(pod: Pod, st: Stack): string {
    if pod.nodeName != "" then pod.nodeName else st.nodeID
  }

  /**
   A pod stays when it is in another namespace or unnamed, when a remaining stack has it, or
   when it belongs to no removed stack and is inside the grace.
   */
  ghost predicate PodStays(namespace: string, w0: World, remaining: set<string>, ref: Ref, now: Time) {
    || ref.namespace != namespace
    || ref.name == ""
    || ref in PodsOf(w0, remaining)
    || (ref in w0.pods && InGrace(w0.pods[ref], now) && ref !in PodsOf(w0, w0.stacks.Keys - remaining))
  }

  /** `w` is what a cycle at `now` leaves of `w0`. */
  ghost predicate Converged(namespace: string, w0: World, w: World, nodes: Nodes, now: Time) {
    && w.stacks.Keys == w0.stacks.Keys - Doomed(w0, nodes, now)
    && (forall id :: id in w.stacks ==>
          && SameStack(w0.stacks[id], w.stacks[id])
          && PodOf(w0.stacks[id]) in w0.pods
          && w.stacks[id].nodeID == EffectiveNode(w0.pods[PodOf(w0.stacks[id])], w0.stacks[id]))
    && w.ports == (map p | p in w0.ports && w0.ports[p] !in Doomed(w0, nodes, now) :: w0.ports[p])
    && w.services == w0.services - ServicesOf(w0, DoomedWithService(w0, nodes, now))
    && (forall ref :: ref in w.pods <==> ref in w0.pods && PodStays(namespace, w0, w.stacks.Keys, ref, now))
    && (forall ref :: ref in w.pods ==> w.pods[ref] == w0.pods[ref])
  }

  // ---------- A second cycle ----------

  lemma SurvivorSurvives(namespace: string, w0: World, w1: World, nodes: Nodes, now: Time, id: string)
    requires WellNamed(namespace, w0) && Converged(namespace, w0, w1, nodes, now) && id in w1.stacks
    ensures Survives(w1, nodes, w1.stacks[id], now)
  {
    var st0, st1 := w0.stacks[id], w1.stacks[id];
    assert id !in Doomed(w0, nodes, now);
    assert PodOf(st1) == PodOf(st0) && PodOf(st0) in PodsOf(w0, w1.stacks.Keys);
    assert ServiceOf(st0) !in ServicesOf(w0, DoomedWithService(w0, nodes, now));
  }

  lemma SurvivorsAreNamed(namespace: string, w0: World, w1: World)
    requires WellNamed(namespace, w0) && w1.stacks.Keys <= w0.stacks.Keys
    requires forall id :: id in w1.stacks ==> SameStack(w0.stacks[id], w1.stacks[id])
    ensures WellNamed(namespace, w1)
  {
  }

  lemma SurvivorsSurvive(namespace: string, w0: World, w1: World, nodes: Nodes, now: Time)
    requires WellNamed(namespace, w0) && Converged(namespace, w0, w1, nodes, now)
    ensures Doomed(w1, nodes, now) == {} && WellNamed(namespace, w1)
  {
    SurvivorsAreNamed(namespace, w0, w1);
    forall id | id in w1.stacks ensures Survives(w1, nodes, w1.stacks[id], now) {
      SurvivorSurvives(namespace, w0, w1, nodes, now, id);
    }
  }

  lemma PodsStayAgain(namespace: string, w0: World, w1: World, nodes: Nodes, now: Time, ref: Ref)
    requires Converged(namespace, w0, w1, nodes, now) && ref in w1.pods
    ensures PodStays(namespace, w1, w1.stacks.Keys, ref, now)
  {
    assert PodStays(namespace, w0, w1.stacks.Keys, ref, now);
    assert PodsOf(w1, w1.stacks.Keys - w1.stacks.Keys) == {};
    if ref in PodsOf(w0, w1.stacks.Keys) {
      var id :| id in w1.stacks && id in w0.stacks && PodOf(w0.stacks[id]) == ref;
      assert SameStack(w0.stacks[id], w1.stacks[id]);
      assert PodOf(w1.stacks[id]) == ref;
    }
  }

  lemma NothingDoomed(w: World, nodes: Nodes, now: Time)
    requires Doomed(w, nodes, now) == {}
    ensures ServicesOf(w, DoomedWithService(w, nodes, now)) == {}
  {
    forall id | id in DoomedWithService(w, nodes, now) ensures id in Doomed(w, nodes, now) {}
  }

  /** A cycle leaves the world so that another one at the same time removes nothing. */
  lemma SecondCycleRemovesNothing(namespace: string, w0: World, w1: World, w2: World, nodes: Nodes, now: Time)
    requires WellNamed(namespace, w0)
    requires Converged(namespace, w0, w1, nodes, now) && Converged(namespace, w1, w2, nodes, now)
    ensures w2.stacks.Keys == w1.stacks.Keys && w2.ports == w1.ports && w2.pods == w1.pods && w2.services == w1.services
  {
    SurvivorsSurvive(namespace, w0, w1, nodes, now);
    NothingDoomed(w1, nodes, now);
    assert w2.stacks.Keys == w1.stacks.Keys;
    forall ref ensures ref in w2.pods <==> ref in w1.pods {
      if ref in w1.pods { PodsStayAgain(namespace, w0, w1, nodes, now, ref); }
    }
  }

  // ---------- The phases of a cycle ----------

  /** Every record already carries the node its pod reports, and its pod is there. */
  ghost predicate Refresh1(w: World) {
    forall id :: id in w.stacks ==>
      && PodOf(w.stacks[id]) in w.pods && !w.pods[PodOf(w.stacks[id])].lost
      && (w.pods[PodOf(w.stacks[id])].nodeName != "" ==> w.stacks[id].nodeID == w.pods[PodOf(w.stacks[id])].nodeName)
  }

  /** The stacks of `gone` went with pod, ports and service; the other records are as they were. */
  ghost predicate SweptAway(w: World, w': World, gone: set<string>) {
    Pruned(w, w', gone, gone) && forall id :: id in w'.stacks ==> w'.stacks[id] == w.stacks[id]
  }

  function ExpiredIn(w: World, now: Time): set<string> {
    set id | id in w.stacks && Expired(w.stacks[id], now)
  }

  /** The stacks whose pod or service a listing does not show. */
  function MissingIn(w: World, pods: set<string>, services: set<string>): set<string> {
    set id | id in w.stacks && !(w.stacks[id].podID in pods && w.stacks[id].serviceName in services)
  }

  lemma PodsOutlive(namespace: string, w: World, w': World, gone: set<string>, swept: set<string>, id: string)
    requires WellNamed(namespace, w) && Pruned(w, w', gone, swept) && id in w'.stacks
    ensures PodOf(w'.stacks[id]) == PodOf(w.stacks[id]) && ServiceOf(w'.stacks[id]) == ServiceOf(w.stacks[id])
    ensures PodOf(w.stacks[id]) in w.pods <==> PodOf(w.stacks[id]) in w'.pods
    ensures PodOf(w.stacks[id]) in w.pods ==> w'.pods[PodOf(w.stacks[id])] == w.pods[PodOf(w.stacks[id])]
    ensures ServiceOf(w.stacks[id]) in w'.services <==> ServiceOf(w.stacks[id]) in w.services
  {
    assert SameStack(w.stacks[id], w'.stacks[id]);
    assert PodOf(w.stacks[id]) !in PodsOf(w, gone);
    assert ServiceOf(w.stacks[id]) !in ServicesOf(w, swept);
  }

  lemma RefreshSettles(namespace: string, w: World, w': World, nodes: Nodes)
    requires WellNamed(namespace, w) && RefreshedWorld(w, w', nodes, w.stacks.Keys)
    ensures Refresh1(w')
  {
    forall id | id in w'.stacks
      ensures PodOf(w'.stacks[id]) in w'.pods && !w'.pods[PodOf(w'.stacks[id])].lost
      ensures w'.pods[PodOf(w'.stacks[id])].nodeName != "" ==> w'.stacks[id].nodeID == w'.pods[PodOf(w'.stacks[id])].nodeName
    {
      PodsOutlive(namespace, w, w', Unviable(w, nodes, w.stacks.Keys), Swept(w, nodes, w.stacks.Keys), id);
    }
  }

  /** Refreshing settled records removes those on dead nodes only, services included. */
  lemma RefreshAgain(namespace: string, w: World, w': World, nodes: Nodes)
    requires WellNamed(namespace, w) && Refresh1(w) && RefreshedWorld(w, w', nodes, w.stacks.Keys)
    ensures Unviable(w, nodes, w.stacks.Keys) == Swept(w, nodes, w.stacks.Keys)
    ensures Unviable(w, nodes, w.stacks.Keys) == set id | id in w.stacks && !NodeLive(nodes, w.stacks[id])
    ensures forall id :: id in w'.stacks ==> w'.stacks[id].nodeID == w.stacks[id].nodeID
  {
  }

  lemma SweepSettles(namespace: string, w: World, w': World, gone: set<string>)
    requires WellNamed(namespace, w) && Refresh1(w) && SweptAway(w, w', gone)
    ensures Refresh1(w')
  {
    forall id | id in w'.stacks
      ensures PodOf(w'.stacks[id]) in w'.pods && w'.pods[PodOf(w'.stacks[id])] == w.pods[PodOf(w.stacks[id])]
    {
      PodsOutlive(namespace, w, w', gone, gone, id);
    }
  }

  /** What is gone after the first refresh, the expiry sweep and the second refresh. */
  function GoneEarly(w: World, nodes: Nodes, now: Time): set<string> {
    set id | id in w.stacks &&
      (Expired(w.stacks[id], now) || !Viable(w, nodes, w.stacks[id])
       || EffectiveNode(w.pods[PodOf(w.stacks[id])], w.stacks[id]) !in nodes)
  }

  function SweptEarly(w: World, nodes: Nodes, now: Time): set<string> {
    set id | id in GoneEarly(w, nodes, now) && (Viable(w, nodes, w.stacks[id]) || Sweeps(w, nodes, w.stacks[id]))
  }

  function Serviceless(w: World): set<string> {
    set id | id in w.stacks && ServiceOf(w.stacks[id]) !in w.services
  }

  lemma SettledBySecondRefresh(namespace: string, w0: World, w1: World, w2: World, w3: World, nodes: Nodes, now: Time)
    requires WellNamed(namespace, w0)
    requires RefreshedWorld(w0, w1, nodes, w0.stacks.Keys)
    requires SweptAway(w1, w2, ExpiredIn(w1, now))
    requires RefreshedWorld(w2, w3, nodes, w2.stacks.Keys)
    ensures WellNamed(namespace, w2) && Refresh1(w2)
    ensures WellNamed(namespace, w3) && Refresh1(w3)
  {
    RefreshSettles(namespace, w0, w1, nodes);
    PruneKeepsNames(namespace, w0, w1, Unviable(w0, nodes, w0.stacks.Keys), Swept(w0, nodes, w0.stacks.Keys));
    SweepSettles(namespace, w1, w2, ExpiredIn(w1, now));
    PruneKeepsNames(namespace, w1, w2, ExpiredIn(w1, now), ExpiredIn(w1, now));
    RefreshSettles(namespace, w2, w3, nodes);
    PruneKeepsNames(namespace, w2, w3, Unviable(w2, nodes, w2.stacks.Keys), Swept(w2, nodes, w2.stacks.Keys));
  }

  /** The nodes of the records that remain. */
  lemma NodesAfterSecondRefresh(namespace: string, w0: World, w1: World, w2: World, w3: World, nodes: Nodes, now: Time, id: string)
    requires RefreshedWorld(w0, w1, nodes, w0.stacks.Keys) && SweptAway(w1, w2, ExpiredIn(w1, now))
    requires RefreshedWorld(w2, w3, nodes, w2.stacks.Keys) && WellNamed(namespace, w2) && Refresh1(w2) && id in w3.stacks
    ensures NodeLive(nodes, w3.stacks[id]) && w3.stacks[id].nodeID == EffectiveNode(w0.pods[PodOf(w0.stacks[id])], w0.stacks[id])
  {
    RefreshAgain(namespace, w2, w3, nodes);
    FateUpToSecondRefresh(w0, w1, w2, nodes, now, id);
  }

  lemma UpToSecondRefresh(namespace: string, w0: World, w1: World, w2: World, w3: World, nodes: Nodes, now: Time)
    requires WellNamed(namespace, w0)
    requires RefreshedWorld(w0, w1, nodes, w0.stacks.Keys)
    requires SweptAway(w1, w2, ExpiredIn(w1, now))
    requires RefreshedWorld(w2, w3, nodes, w2.stacks.Keys)
    ensures WellNamed(namespace, w3) && Refresh1(w3)
    ensures Pruned(w0, w3, GoneEarly(w0, nodes, now), SweptEarly(w0, nodes, now))
    ensures forall id :: id in w3.stacks ==>
              NodeLive(nodes, w3.stacks[id]) && w3.stacks[id].nodeID == EffectiveNode(w0.pods[PodOf(w0.stacks[id])], w0.stacks[id])
  {
    SettledBySecondRefresh(namespace, w0, w1, w2, w3, nodes, now);
    PrunedBySecondRefresh(namespace, w0, w1, w2, w3, nodes, now);
    forall id | id in w3.stacks
      ensures NodeLive(nodes, w3.stacks[id]) && w3.stacks[id].nodeID == EffectiveNode(w0.pods[PodOf(w0.stacks[id])], w0.stacks[id])
    {
      NodesAfterSecondRefresh(namespace, w0, w1, w2, w3, nodes, now, id);
    }
  }

  lemma PrunedBySecondRefresh(namespace: string, w0: World, w1: World, w2: World, w3: World, nodes: Nodes, now: Time)
    requires RefreshedWorld(w0, w1, nodes, w0.stacks.Keys) && SweptAway(w1, w2, ExpiredIn(w1, now))
    requires RefreshedWorld(w2, w3, nodes, w2.stacks.Keys) && WellNamed(namespace, w2) && Refresh1(w2)
    ensures Pruned(w0, w3, GoneEarly(w0, nodes, now), SweptEarly(w0, nodes, now))
  {
    var u0, s0 := Unviable(w0, nodes, w0.stacks.Keys), Swept(w0, nodes, w0.stacks.Keys);
    var e1, u2 := ExpiredIn(w1, now), Unviable(w2, nodes, w2.stacks.Keys);
    RefreshAgain(namespace, w2, w3, nodes);
    PruneTwice(w0, w1, w2, u0, s0, e1, e1);
    PruneTwice(w0, w2, w3, u0 + e1, s0 + e1, u2, u2);
    forall id | id in w0.stacks
      ensures id in u0 + e1 + u2 <==> id in GoneEarly(w0, nodes, now)
      ensures id in s0 + e1 + u2 <==> id in SweptEarly(w0, nodes, now)
    {
      FateUpToSecondRefresh(w0, w1, w2, nodes, now, id);
    }
    assert u0 + e1 + u2 == GoneEarly(w0, nodes, now);
    assert s0 + e1 + u2 == SweptEarly(w0, nodes, now);
  }

  lemma FateUpToSecondRefresh(w0: World, w1: World, w2: World, nodes: Nodes, now: Time, id: string)
    requires RefreshedWorld(w0, w1, nodes, w0.stacks.Keys)
    requires SweptAway(w1, w2, ExpiredIn(w1, now)) && id in w0.stacks
    ensures id in w1.stacks <==> Viable(w0, nodes, w0.stacks[id])
    ensures id in w2.stacks <==> Viable(w0, nodes, w0.stacks[id]) && !Expired(w0.stacks[id], now)
    ensures id in w2.stacks ==> w2.stacks[id].nodeID == EffectiveNode(w0.pods[PodOf(w0.stacks[id])], w0.stacks[id]) != ""
  {
    if id in w1.stacks { assert SameStack(w0.stacks[id], w1.stacks[id]); }
  }

  /** With a pod for every record, what the listings do not show is the services. */
  lemma MissingAreServiceless(namespace: string, w: World, pods: set<string>, services: set<string>)
    requires WellNamed(namespace, w) && Refresh1(w)
    requires forall name :: name in pods <==> name != "" && Ref(namespace, name) in w.pods
    requires forall name :: name in services <==> name != "" && Ref(namespace, name) in w.services
    ensures MissingIn(w, pods, services) == Serviceless(w)
  {
    forall id | id in w.stacks ensures id in MissingIn(w, pods, services) <==> ServiceOf(w.stacks[id]) !in w.services {
      assert PodOf(w.stacks[id]) == Ref(namespace, w.stacks[id].podID) && ServiceOf(w.stacks[id]) == Ref(namespace, w.stacks[id].serviceName);
    }
  }

  /** Refreshing settled records on live nodes removes none and changes no node. */
  lemma RefreshKeepsAll(namespace: string, w: World, w': World, nodes: Nodes)
    requires WellNamed(namespace, w) && Refresh1(w) && RefreshedWorld(w, w', nodes, w.stacks.Keys)
    requires forall id :: id in w.stacks ==> NodeLive(nodes, w.stacks[id])
    ensures Pruned(w, w', {}, {}) && forall id :: id in w'.stacks ==> w'.stacks[id].nodeID == w.stacks[id].nodeID
  {
    RefreshAgain(namespace, w, w', nodes);
    assert Unviable(w, nodes, w.stacks.Keys) == {};
  }

  lemma PruneThenNothing(w0: World, w1: World, w2: World, gone: set<string>)
    requires Pruned(w0, w1, gone, gone) && Pruned(w1, w2, {}, {})
    ensures Pruned(w0, w2, gone, gone)
  {
    PruneTwice(w0, w1, w2, gone, gone, {}, {});
    assert gone + {} == gone;
  }

  lemma UpToThirdRefresh(namespace: string, w3: World, w4: World, w5: World, pods: set<string>, services: set<string>, nodes: Nodes)
    requires WellNamed(namespace, w3) && Refresh1(w3)
    requires forall id :: id in w3.stacks ==> NodeLive(nodes, w3.stacks[id])
    requires forall name :: name in pods <==> name != "" && Ref(namespace, name) in w3.pods
    requires forall name :: name in services <==> name != "" && Ref(namespace, name) in w3.services
    requires SweptAway(w3, w4, MissingIn(w3, pods, services))
    requires RefreshedWorld(w4, w5, nodes, w4.stacks.Keys)
    ensures Pruned(w3, w5, Serviceless(w3), Serviceless(w3))
    ensures forall id :: id in w5.stacks ==> w5.stacks[id].nodeID == w3.stacks[id].nodeID
  {
    var m := MissingIn(w3, pods, services);
    MissingAreServiceless(namespace, w3, pods, services);
    PruneKeepsNames(namespace, w3, w4, m, m);
    SweepSettles(namespace, w3, w4, m);
    RefreshKeepsAll(namespace, w4, w5, nodes);
    PruneThenNothing(w3, w4, w5, m);
  }

  /** The pods the last sweep deletes: named, of the namespace, registered by no stack, past the grace. */
  ghost predicate OrphansGone(namespace: string, w: World, w': World, now: Time) {
    && w' == w.(pods := w'.pods)
    && (forall ref :: ref in w'.pods <==>
          ref in w.pods && (ref.namespace != namespace || ref.name == "" || ref in PodsOf(w, w.stacks.Keys) || InGrace(w.pods[ref], now)))
    && (forall ref :: ref in w'.pods ==> w'.pods[ref] == w.pods[ref])
  }

  lemma CycleConverges(namespace: string, w0: World, w3: World, w5: World, w6: World, nodes: Nodes, now: Time)
    requires WellNamed(namespace, w0)
    requires Pruned(w0, w3, GoneEarly(w0, nodes, now), SweptEarly(w0, nodes, now))
    requires forall id :: id in w3.stacks ==>
               w3.stacks[id].nodeID == EffectiveNode(w0.pods[PodOf(w0.stacks[id])], w0.stacks[id])
    requires Pruned(w3, w5, Serviceless(w3), Serviceless(w3))
    requires forall id :: id in w5.stacks ==> w5.stacks[id].nodeID == w3.stacks[id].nodeID
    requires OrphansGone(namespace, w5, w6, now)
    ensures Converged(namespace, w0, w6, nodes, now)
  {
    var gone, swept := GoneEarly(w0, nodes, now) + Serviceless(w3), SweptEarly(w0, nodes, now) + Serviceless(w3);
    PruneTwice(w0, w3, w5, GoneEarly(w0, nodes, now), SweptEarly(w0, nodes, now), Serviceless(w3), Serviceless(w3));
    DoomedInTwoParts(namespace, w0, w3, nodes, now);
    DoomedServicesInTwoParts(namespace, w0, w3, nodes, now);
    PodsAfterCycle(namespace, w0, w5, w6, gone, swept, now);
    forall id | id in w6.stacks
      ensures SameStack(w0.stacks[id], w6.stacks[id]) && PodOf(w0.stacks[id]) in w0.pods
      ensures w6.stacks[id].nodeID == EffectiveNode(w0.pods[PodOf(w0.stacks[id])], w0.stacks[id])
    {
      assert id !in GoneEarly(w0, nodes, now);
    }
  }

  lemma StillServed(namespace: string, w0: World, w3: World, nodes: Nodes, now: Time)
    requires WellNamed(namespace, w0) && Pruned(w0, w3, GoneEarly(w0, nodes, now), SweptEarly(w0, nodes, now))
    ensures forall id :: id in w3.stacks ==> (id in Serviceless(w3) <==> ServiceOf(w0.stacks[id]) !in w0.services)
  {
    forall id | id in w3.stacks ensures id in Serviceless(w3) <==> ServiceOf(w0.stacks[id]) !in w0.services {
      PodsOutlive(namespace, w0, w3, GoneEarly(w0, nodes, now), SweptEarly(w0, nodes, now), id);
    }
  }

  /** A stack is doomed when it goes early or has no service. */
  lemma FateOfOne(w0: World, nodes: Nodes, now: Time, id: string)
    requires id in w0.stacks
    ensures id in Doomed(w0, nodes, now) <==> id in GoneEarly(w0, nodes, now) || ServiceOf(w0.stacks[id]) !in w0.services
    ensures id in DoomedWithService(w0, nodes, now) <==>
            id in SweptEarly(w0, nodes, now) || (id !in GoneEarly(w0, nodes, now) && ServiceOf(w0.stacks[id]) !in w0.services)
  {
  }

  lemma DoomedInTwoParts(namespace: string, w0: World, w3: World, nodes: Nodes, now: Time)
    requires WellNamed(namespace, w0) && Pruned(w0, w3, GoneEarly(w0, nodes, now), SweptEarly(w0, nodes, now))
    ensures GoneEarly(w0, nodes, now) + Serviceless(w3) == Doomed(w0, nodes, now)
  {
    StillServed(namespace, w0, w3, nodes, now);
    forall id | id in w0.stacks ensures id in Doomed(w0, nodes, now) <==> id in GoneEarly(w0, nodes, now) || id in Serviceless(w3) {
      FateOfOne(w0, nodes, now, id);
    }
  }

  lemma DoomedServicesInTwoParts(namespace: string, w0: World, w3: World, nodes: Nodes, now: Time)
    requires WellNamed(namespace, w0) && Pruned(w0, w3, GoneEarly(w0, nodes, now), SweptEarly(w0, nodes, now))
    ensures SweptEarly(w0, nodes, now) + Serviceless(w3) == DoomedWithService(w0, nodes, now)
  {
    StillServed(namespace, w0, w3, nodes, now);
    forall id | id in w0.stacks
      ensures id in DoomedWithService(w0, nodes, now) <==> id in SweptEarly(w0, nodes, now) || id in Serviceless(w3)
    {
      FateOfOne(w0, nodes, now, id);
    }
  }

  lemma SamePods(w: World, w': World)
    requires w'.stacks.Keys <= w.stacks.Keys && forall id :: id in w'.stacks ==> SameStack(w.stacks[id], w'.stacks[id])
    ensures PodsOf(w', w'.stacks.Keys) == PodsOf(w, w'.stacks.Keys)
  {
    assert forall id :: id in w'.stacks ==> SameStack(w.stacks[id], w'.stacks[id]) && PodOf(w'.stacks[id]) == PodOf(w.stacks[id]);
  }

  lemma PodsAfterCycle(namespace: string, w0: World, w5: World, w6: World, gone: set<string>, swept: set<string>, now: Time)
    requires WellNamed(namespace, w0) && Pruned(w0, w5, gone, swept) && OrphansGone(namespace, w5, w6, now)
    ensures forall ref :: ref in w6.pods <==> ref in w0.pods && PodStays(namespace, w0, w6.stacks.Keys, ref, now)
    ensures forall ref :: ref in w6.pods ==> w6.pods[ref] == w0.pods[ref]
  {
    assert w0.stacks.Keys - w5.stacks.Keys == gone;
    SamePods(w0, w5);
    forall ref | ref in w0.pods && ref in PodsOf(w0, gone)
      ensures ref.namespace == namespace && ref.name != "" && ref !in PodsOf(w0, w5.stacks.Keys)
    {}
  }

  // ---------- Sweeping the entries of a listing ----------

  function Chosen(items: seq<Stack>, doomed: Stack -> bool): set<string> {
    set st | st in items && doomed(st) :: st.stackID
  }

  lemma ChosenExpired(items: seq<Stack>, w: World, now: Time)
    requires IsView(items, w.stacks, w.stacks.Keys)
    ensures Chosen(items, (st: Stack) => Expired(st, now)) == ExpiredIn(w, now)
  {
    forall id | id in ExpiredIn(w, now) ensures id in Chosen(items, (st: Stack) => Expired(st, now)) {
      assert id in IDs(items);
      var st :| st in items && st.stackID == id;
      assert IsEntry(st, w.stacks);
    }
    forall st | st in items && Expired(st, now) ensures st.stackID in ExpiredIn(w, now) {
      assert IsEntry(st, w.stacks);
    }
  }

  predicate Unlisted(st: Stack, pods: set<string>, services: set<string>) {
    !(st.podID in pods && st.serviceName in services)
  }

  lemma ChosenMissing(items: seq<Stack>, w: World, pods: set<string>, services: set<string>)
    requires IsView(items, w.stacks, w.stacks.Keys)
    ensures Chosen(items, (st: Stack) => Unlisted(st, pods, services)) == MissingIn(w, pods, services)
  {
    forall id | id in MissingIn(w, pods, services) ensures id in Chosen(items, (st: Stack) => Unlisted(st, pods, services)) {
      assert id in IDs(items);
      var st :| st in items && st.stackID == id;
      assert IsEntry(st, w.stacks);
    }
    forall st | st in items && Unlisted(st, pods, services) ensures st.stackID in MissingIn(w, pods, services) {
      assert IsEntry(st, w.stacks);
    }
  }

  lemma ChosenOneMore(items: seq<Stack>, i: nat, doomed: Stack -> bool)
    requires i < |items| && forall j, k :: 0 <= j < k < |items| ==> items[j].stackID != items[k].stackID
    ensures items[i].stackID !in Chosen(items[..i], doomed)
    ensures Chosen(items[..i + 1], doomed) ==
              if doomed(items[i]) then Chosen(items[..i], doomed) + {items[i].stackID} else Chosen(items[..i], doomed)
  {
    assert items[..i + 1] == items[..i] + [items[i]];
  }

  lemma NotSweptYet(namespace: string, w0: World, w: World, items: seq<Stack>, i: nat, doomed: Stack -> bool)
    requires i < |items| && IsView(items, w0.stacks, w0.stacks.Keys) && WellNamed(namespace, w0)
    requires SweptAway(w0, w, Chosen(items[..i], doomed))
    ensures items[i].stackID in w.stacks && SameStack(w.stacks[items[i].stackID], items[i]) && items[i].serviceName != ""
    ensures Chosen(items[..i + 1], doomed) ==
              if doomed(items[i]) then Chosen(items[..i], doomed) + {items[i].stackID} else Chosen(items[..i], doomed)
  {
    ChosenOneMore(items, i, doomed);
    assert IsEntry(items[i], w0.stacks);
  }

  lemma SweepOneMore(w0: World, w: World, gone: set<string>, id: string)
    requires Agree(w.stacks, w.ports) && SweptAway(w0, w, gone) && id in w.stacks
    ensures SweptAway(w0, Without(w, id, true), gone + {id})
  {
    PruneOne(w0, w, gone, gone, id, true);
  }

  // ---------- Sweeping orphans ----------

  /** The sweep passes over this pod: registered, in its grace, or the repository says it has an owner. */
  ghost predicate Spared(namespace: string, w: World, registered: set<string>, name: string, now: Time)
    requires Ref(namespace, name) in w.pods
  {
    var pod := w.pods[Ref(namespace, name)];
    name in registered || InGrace(pod, now) || (pod.stackID != "" && pod.stackID in w.stacks && w.stacks[pod.stackID].podID == name)
  }

  function Refs(namespace: string, names: set<string>): set<Ref> {
    set name | name in names :: Ref(namespace, name)
  }

  ghost function Unspared(namespace: string, w: World, registered: set<string>, names: set<string>, now: Time): set<Ref> {
    Refs(namespace, set name | name in names && Ref(namespace, name) in w.pods && !Spared(namespace, w, registered, name, now))
  }

  lemma UnsparedOneMore(namespace: string, w: World, registered: set<string>, names: set<string>, name: string, now: Time)
    requires Ref(namespace, name) in w.pods
    ensures Unspared(namespace, w, registered, names + {name}, now) ==
              Unspared(namespace, w, registered, names, now) + (if Spared(namespace, w, registered, name, now) then {} else {Ref(namespace, name)})
  {
  }

  /** With every pod of a live stack registered, the sweep leaves exactly the pods that are no orphans. */
  lemma OrphansSwept(namespace: string, w: World, w': World, registered: set<string>, listing: map<string, Pod>, now: Time)
    requires WellNamed(namespace, w) && registered == (set id | id in w.stacks :: w.stacks[id].podID)
    requires Listed(namespace, listing, w.pods)
    requires w' == w.(pods := w.pods - Unspared(namespace, w, registered, listing.Keys, now))
    ensures OrphansGone(namespace, w, w', now)
  {
    forall ref | ref in w.pods
      ensures ref in w'.pods <==> ref.namespace != namespace || ref.name == "" || ref in PodsOf(w, w.stacks.Keys) || InGrace(w.pods[ref], now)
    {
      assert ref == Ref(ref.namespace, ref.name);
      if ref.name in registered && ref.namespace == namespace {
        var id :| id in w.stacks && w.stacks[id].podID == ref.name;
        assert PodOf(w.stacks[id]) == ref;
      }
      if ref in PodsOf(w, w.stacks.Keys) {
        var id :| id in w.stacks && PodOf(w.stacks[id]) == ref;
        assert ref.name in registered;
      }
    }
  }

  lemma RegisteredPods(namespace: string, view: seq<Stack>, w: World)
    requires IsView(view, w.stacks, w.stacks.Keys) && WellNamed(namespace, w)
    ensures (set st | st in view && st.podID != "" :: st.podID) == set id | id in w.stacks :: w.stacks[id].podID
  {
    var registered := set st | st in view && st.podID != "" :: st.podID;
    forall id | id in w.stacks ensures w.stacks[id].podID in registered {
      assert id in IDs(view);
      var st :| st in view && st.stackID == id;
      assert IsEntry(st, w.stacks);
    }
    forall st | st in view && st.podID != "" ensures st.podID in set id | id in w.stacks :: w.stacks[id].podID {
      assert IsEntry(st, w.stacks);
      assert w.stacks[st.stackID].podID == st.podID;
    }
  }

  /** The sweep of pods that the last listing of stacks does not register. */
  lemma UnregisteredSwept(namespace: string, w: World, w': World, view: seq<Stack>, listing: map<string, Pod>, now: Time)
    requires IsView(view, w.stacks, w.stacks.Keys) && WellNamed(namespace, w) && Listed(namespace, listing, w.pods)
    requires var registered := set st | st in view && st.podID != "" :: st.podID;
             w' == w.(pods := w.pods - Unspared(namespace, w, registered, listing.Keys, now))
    ensures OrphansGone(namespace, w, w', now)
  {
    RegisteredPods(namespace, view, w);
    OrphansSwept(namespace, w, w', set st | st in view && st.podID != "" :: st.podID, listing, now);
  }

  lemma ListingKeepsNames(namespace: string, w: World, w': World, nodes: Nodes, done: set<string>, view: seq<Stack>)
    requires WellNamed(namespace, w) && RefreshedWorld(w, w', nodes, done) && done == w.stacks.Keys && IsView(view, w'.stacks, done)
    ensures WellNamed(namespace, w') && IsView(view, w'.stacks, w'.stacks.Keys)
  {
    PruneKeepsNames(namespace, w, w', Unviable(w, nodes, done), Swept(w, nodes, done));
    forall i | 0 <= i < |view| ensures view[i].stackID in w'.stacks {
      assert IsEntry(view[i], w'.stacks);
    }
  }

  /** The phases of one cycle, put together. */
  lemma CycleOf(namespace: string, w0: World, w1: World, w2: World, w3: World, w4: World, w5: World, w6: World,
                pods: set<string>, services: set<string>, nodes: Nodes, now: Time)
    requires WellNamed(namespace, w0)
    requires RefreshedWorld(w0, w1, nodes, w0.stacks.Keys) && SweptAway(w1, w2, ExpiredIn(w1, now))
    requires RefreshedWorld(w2, w3, nodes, w2.stacks.Keys)
    requires forall name :: name in pods <==> name != "" && Ref(namespace, name) in w3.pods
    requires forall name :: name in services <==> name != "" && Ref(namespace, name) in w3.services
    requires SweptAway(w3, w4, MissingIn(w3, pods, services))
    requires RefreshedWorld(w4, w5, nodes, w4.stacks.Keys) && OrphansGone(namespace, w5, w6, now)
    ensures Converged(namespace, w0, w6, nodes, now)
  {
    UpToSecondRefresh(namespace, w0, w1, w2, w3, nodes, now);
    UpToThirdRefresh(namespace, w3, w4, w5, pods, services, nodes);
    CycleConverges(namespace, w0, w3, w5, w6, nodes, now);
  }

  /** The same, of a cycle that is known to run without faults only when `tidy`. */
  lemma CycleConcludes(namespace: string, tidy: bool, w0: World, w1: World, w2: World, w3: World, w4: World, w5: World, w6: World,
                       pods: set<string>, services: set<string>, nodes: Nodes, now: Time)
    requires tidy ==> WellNamed(namespace, w0) && RefreshedWorld(w0, w1, nodes, w0.stacks.Keys)
    requires tidy ==> SweptAway(w1, w2, ExpiredIn(w1, now)) && RefreshedWorld(w2, w3, nodes, w2.stacks.Keys)
    requires tidy ==> forall name :: name in pods <==> name != "" && Ref(namespace, name) in w3.pods
    requires tidy ==> forall name :: name in services <==> name != "" && Ref(namespace, name) in w3.services
    requires tidy ==> SweptAway(w3, w4, MissingIn(w3, pods, services))
    requires tidy ==> RefreshedWorld(w4, w5, nodes, w4.stacks.Keys) && OrphansGone(namespace, w5, w6, now)
    ensures tidy ==> Converged(namespace, w0, w6, nodes, now)
  {
    if tidy { CycleOf(namespace, w0, w1, w2, w3, w4, w5, w6, pods, services, nodes, now); }
  }
}
