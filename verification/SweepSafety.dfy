/**
 The orphan sweep never deletes the pod of a live stack, and a Service never uses a node
 port that the repository regards as free.
 */
module SweepSafety {
  import opened Types
  import opened Reconciliation
  import opened StackIdentity
  import opened PortConservation

  /** From pod creation to the commit. */
  predicate EnRoute(k: Creator) {
    k.pc.ServiceNext? || k.pc.Waiting? || k.pc.CommitNext?
  }

  /** No create is still on its way to a commit once its pod is as old as the grace. */
  ghost predicate Timely(s: Sys) {
    forall c :: c in s.creators && EnRoute(s.creators[c]) ==> s.clock < s.creators[c].podAt + GRACE
  }

  /** No stack has this pod, and no creator can still commit one that has. */
  predicate Unclaimed(store: Store, creators: map<string, Creator>, p: PodName) {
    p.StackPod? && p.id in creators ==>
      && (p.attempt < creators[p.id].attempt || (p.attempt == creators[p.id].attempt && creators[p.id].made && !EnRoute(creators[p.id])))
      && (p.id in store.stacks ==> store.stacks[p.id].pod != p)
  }

  ghost predicate SweepsUnclaimed(s: Sys) {
    forall k :: k in s.cleaners && s.cleaners[k].doing.Sweeping? ==> Unclaimed(s.store, s.creators, s.cleaners[k].doing.pod)
  }

  lemma UnclaimedOutlivesCreators(s: Sys, c: string, act: CreatorAction, s': Sys, p: PodName)
    requires Identity(s) && Next(s, Create(c, act)) == Some(s')
    requires Unclaimed(s.store, s.creators, p) && (p.StackPod? ==> p.id in s.creators)
    ensures Unclaimed(s'.store, s'.creators, p)
  {
    CreatorStepIsOwn(s.store, s.clock, c, s.creators[c], act, s'.store, s'.creators[c]);
  }

  /** An unclaimed pod stays unclaimed. */
  lemma UnclaimedLasts(s: Sys, e: Event, s': Sys, p: PodName)
    requires Identity(s) && Next(s, e) == Some(s')
    requires Unclaimed(s.store, s.creators, p) && (p.StackPod? ==> p.id in s.creators)
    ensures Unclaimed(s'.store, s'.creators, p)
  {
    match e
    case Create(c, act) => UnclaimedOutlivesCreators(s, c, act, s', p);
    case Advance(w, a) => WorkerKeepsRecords(s.store, s.workers[w], a, s'.store, s'.workers[w]);
    case Clean(k, does) => CleanerKeepsRecords(s.store, s.cleaners[k], does, s'.store, s'.cleaners[k]);
    case _ =>
  }

  /** The age test and the last look at the repository let only unclaimed pods through. */
  lemma GuardPassesUnclaimed(s: Sys, k: nat, p: PodName, s': Sys)
    requires Identity(s) && Timely(s) && Next(s, Clean(k, Guard(p))) == Some(s') && s'.cleaners[k].doing.Sweeping?
    ensures Unclaimed(s.store, s.creators, p)
  {
    assert CleanerOk(s, s.cleaners[k]);
    assert Known(s.creators, p, s.cleaners[k].infos.value[p]);
  }

  /** A sweep in progress was let through at this very step, or it was before. */
  lemma SweepBegins(s: Sys, e: Event, s': Sys, k: nat)
    requires Next(s, e) == Some(s') && k in s'.cleaners && s'.cleaners[k].doing.Sweeping?
    ensures if e.Clean? && e.k == k then e.does == Guard(s'.cleaners[k].doing.pod)
            else k in s.cleaners && s.cleaners[k] == s'.cleaners[k]
  {
  }

  lemma SweptIsKnown(s: Sys, k: nat)
    requires Identity(s) && k in s.cleaners && s.cleaners[k].doing.Sweeping?
    ensures var p := s.cleaners[k].doing.pod; p.StackPod? ==> p.id in s.creators
  {
    var c := s.cleaners[k];
    assert CleanerOk(s, c);
    assert Known(s.creators, c.doing.pod, c.infos.value[c.doing.pod]);
  }

  lemma StepSweepsUnclaimed(s: Sys, e: Event, s': Sys)
    requires Identity(s) && Timely(s) && SweepsUnclaimed(s) && Next(s, e) == Some(s')
    requires Identity(s') && Evolves(s, s')
    ensures SweepsUnclaimed(s')
  {
    forall k | k in s'.cleaners && s'.cleaners[k].doing.Sweeping?
      ensures Unclaimed(s'.store, s'.creators, s'.cleaners[k].doing.pod)
    {
      var p := s'.cleaners[k].doing.pod;
      SweepBegins(s, e, s', k);
      SweptIsKnown(s', k);
      if e.Clean? && e.k == k {
        GuardPassesUnclaimed(s, k, p, s');
      } else {
        SweptIsKnown(s, k);
        UnclaimedLasts(s, e, s', p);
      }
    }
  }

  lemma {:induction false} SweepsUnclaimedInRun(run: seq<Sys>, es: seq<Event>, n: nat)
    requires IsRun(run, es) && n < |run| && forall i :: 0 <= i < n ==> Timely(run[i])
    ensures SweepsUnclaimed(run[n])
  {
    if n > 0 {
      SweepsUnclaimedInRun(run, es, n - 1);
      IdentityHolds(run, es, n - 1);
      StepKeepsIdentity(run[n - 1], es[n - 1], run[n]);
      StepSweepsUnclaimed(run[n - 1], es[n - 1], run[n]);
    }
  }

  /**
   When every create commits or rolls back within the grace, no orphan sweep deletes the pod of
   a live stack, or one that a create is about to commit.
   */
  lemma OrphanSweepSparesLiveStacks(run: seq<Sys>, es: seq<Event>, n: nat, k: nat)
    requires IsRun(run, es) && n < |es| && es[n] == Clean(k, Sweep) && forall i :: 0 <= i <= n ==> Timely(run[i])
    ensures forall id :: id in run[n].store.stacks ==>
              (run[n].store.stacks[id].pod in run[n + 1].store.pods <==> run[n].store.stacks[id].pod in run[n].store.pods)
    ensures forall c :: c in run[n].creators && EnRoute(run[n].creators[c]) ==>
              var pod := StackPod(c, run[n].creators[c].attempt);
              pod in run[n + 1].store.pods <==> pod in run[n].store.pods
  {
    SweepsUnclaimedInRun(run, es, n);
    IdentityHolds(run, es, n);
    var s := run[n];
    assert Next(s, es[n]) == Some(run[n + 1]);
    assert Unclaimed(s.store, s.creators, s.cleaners[k].doing.pod);
  }

  // ---------- Services ----------

  /** No pod vanishes by itself, and deleting a service succeeds. */
  predicate Benign(s: Sys, e: Event) {
    && !e.Vanish?
    && !(e.Create? && e.act.DeleteServiceFails?)
    && !(e.Advance? && e.w in s.workers && s.workers[e.w].pc.DropService? && e.a.Fails?)
    && !(e.Clean? && e.does.Work? && e.does.a.Fails? && e.k in s.cleaners && s.cleaners[e.k].doing.Busy?
         && s.cleaners[e.k].doing.worker.pc.DropService?)
  }

  predicate WithService(k: Creator) {
    k.pc.Waiting? || k.pc.CommitNext? || k.pc.UndoService?
  }

  predicate PodReady(store: Store, c: string, k: Creator) {
    EnRoute(k) ==> StackPod(c, k.attempt) in store.pods
  }

  /** A service is that of a live stack, whose pod is there, or of the create that has it. */
  predicate Backed(store: Store, creators: map<string, Creator>, id: string) {
    id in store.services ==>
      if id in store.stacks then store.services[id] == store.stacks[id].ports && store.stacks[id].pod in store.pods
      else id in creators && WithService(creators[id]) && store.services[id] == creators[id].held
  }

  /** Deletions drop the service before the pod and the record. */
  predicate ServiceGone(store: Store, w: Worker) {
    w.pc.DropPod? || w.pc.DropRecord? ==> w.id !in store.services
  }

  ghost predicate ServicesBacked(s: Sys) {
    && (forall c :: c in s.creators ==> PodReady(s.store, c, s.creators[c]))
    && (forall id :: id in s.store.services ==> Backed(s.store, s.creators, id))
    && (forall w :: w in s.workers ==> ServiceGone(s.store, s.workers[w]))
    && (forall k :: k in s.cleaners && s.cleaners[k].doing.Busy? ==> ServiceGone(s.store, s.cleaners[k].doing.worker))
  }

  lemma CreatorBacksItsService(store: Store, clock: Time, creators: map<string, Creator>, c: string, act: CreatorAction, store': Store, k': Creator)
    requires c in creators && c !in store.stacks && CreatorStep(store, clock, c, creators[c], act) == Some((store', k'))
    requires PodReady(store, c, creators[c]) && Backed(store, creators, c) && !act.DeleteServiceFails?
    ensures PodReady(store', c, k') && Backed(store', creators[c := k'], c)
  {
  }

  lemma CreatorKeepsOtherServices(store: Store, clock: Time, c: string, k: Creator, act: CreatorAction, store': Store, k': Creator)
    requires CreatorStep(store, clock, c, k, act) == Some((store', k'))
    ensures store'.services - {c} == store.services - {c} && store'.stacks - {c} == store.stacks - {c}
    ensures forall p :: p in store.pods && p != StackPod(c, k.attempt) ==> p in store'.pods
  {
  }

  lemma CreatorBacksServices(s: Sys, c: string, act: CreatorAction, s': Sys)
    requires Identity(s) && ServicesBacked(s) && Next(s, Create(c, act)) == Some(s') && !act.DeleteServiceFails?
    ensures ServicesBacked(s')
  {
    var k, k' := s.creators[c], s'.creators[c];
    CreatorStepIsOwn(s.store, s.clock, c, k, act, s'.store, k');
    CreatorBacksItsService(s.store, s.clock, s.creators, c, act, s'.store, k');
    CreatorKeepsOtherServices(s.store, s.clock, c, k, act, s'.store, k');
    SameServicesBacked(s, s', c, StackPod(c, k.attempt));
  }

  /** A step on behalf of one stack, touching one pod of it, leaves the others as they were. */
  lemma SameServicesBacked(s: Sys, s': Sys, c: string, pod: PodName)
    requires Identity(s) && ServicesBacked(s) && pod.StackPod? && pod.id == c
    requires s'.creators.Keys == s.creators.Keys && s'.creators - {c} == s.creators - {c} && s'.workers == s.workers && s'.cleaners == s.cleaners
    requires s'.store.services - {c} == s.store.services - {c} && s'.store.stacks - {c} == s.store.stacks - {c}
    requires forall p :: p in s.store.pods && p != pod ==> p in s'.store.pods
    requires c in s.creators ==> PodReady(s'.store, c, s'.creators[c])
    requires Backed(s'.store, s'.creators, c)
    requires StackIdentity.Finished(s.creators, c) ==> s'.store.services.Keys <= s.store.services.Keys
    ensures ServicesBacked(s')
  {
    forall d | d in s'.creators ensures PodReady(s'.store, d, s'.creators[d]) {
      if d != c { assert d in s'.creators - {c} && d in s.creators - {c} && PodReady(s.store, d, s.creators[d]); }
    }
    forall id | id in s'.store.services ensures Backed(s'.store, s'.creators, id) {
      if id != c { OtherServiceBacked(s, s', c, pod, id); }
    }
    forall w | w in s'.workers ensures ServiceGone(s'.store, s'.workers[w]) {
      StillGone(s, s', c, s.workers[w]);
    }
    forall k | k in s'.cleaners && s'.cleaners[k].doing.Busy? ensures ServiceGone(s'.store, s'.cleaners[k].doing.worker) {
      assert CleanerOk(s, s.cleaners[k]);
      StillGone(s, s', c, s.cleaners[k].doing.worker);
    }
  }

  lemma OtherServiceBacked(s: Sys, s': Sys, c: string, pod: PodName, id: string)
    requires Rooted(s) && Backed(s.store, s.creators, id) && pod.StackPod? && pod.id == c && id != c
    requires s'.creators - {c} == s.creators - {c}
    requires s'.store.services - {c} == s.store.services - {c} && s'.store.stacks - {c} == s.store.stacks - {c}
    requires forall p :: p in s.store.pods && p != pod ==> p in s'.store.pods
    ensures Backed(s'.store, s'.creators, id)
  {
    assert id in s'.store.services ==> id in s'.store.services - {c} && id in s.store.services - {c};
    assert id in s'.store.stacks <==> id in s'.store.stacks - {c};
    assert id in s.store.stacks <==> id in s.store.stacks - {c};
    assert id in s.creators <==> id in s.creators - {c};
    assert id in s'.creators <==> id in s'.creators - {c};
    assert s.creators - {c} == s'.creators - {c};
  }

  lemma StillGone(s: Sys, s': Sys, c: string, w: Worker)
    requires ServiceGone(s.store, w) && CopyOf(s.store, s.creators, w.id, w.rec)
    requires s'.store.services - {c} == s.store.services - {c}
    requires StackIdentity.Finished(s.creators, c) ==> s'.store.services.Keys <= s.store.services.Keys
    ensures ServiceGone(s'.store, w)
  {
    if w.id != c && w.id in s'.store.services { assert w.id in s'.store.services - {c}; }
  }

  /** One call of a deletion or refresh, whoever runs it, seen from its own stack. */
  lemma WorkerBacksItsService(store: Store, creators: map<string, Creator>, w: Worker, a: WorkerAction, store': Store, w': Worker)
    requires WorkerStep(store, w, a) == Some((store', w')) && !(w.pc.DropService? && a.Fails?)
    requires CopyOf(store, creators, w.id, w.rec) && Backed(store, creators, w.id) && ServiceGone(store, w)
    ensures Backed(store', creators, w.id) && ServiceGone(store', w')
  {
  }

  lemma WorkerKeepsOtherServices(store: Store, w: Worker, a: WorkerAction, store': Store, w': Worker)
    requires WorkerStep(store, w, a) == Some((store', w'))
    ensures store'.services - {w.id} == store.services - {w.id} && store'.stacks - {w.id} == store.stacks - {w.id}
    ensures store'.services.Keys <= store.services.Keys
    ensures forall p :: p in store.pods && p != w.rec.pod ==> p in store'.pods
  {
  }

  lemma WorkerBacksServices(s: Sys, w: Worker, a: WorkerAction, store': Store, w': Worker)
    requires Identity(s) && ServicesBacked(s) && CopyOf(s.store, s.creators, w.id, w.rec)
    requires WorkerStep(s.store, w, a) == Some((store', w')) && !(w.pc.DropService? && a.Fails?)
    requires ServiceGone(s.store, w)
    ensures ServicesBacked(s.(store := store')) && ServiceGone(store', w')
  {
    WorkerBacksItsService(s.store, s.creators, w, a, store', w');
    WorkerKeepsOtherServices(s.store, w, a, store', w');
    SameServicesBacked(s, s.(store := store'), w.id, w.rec.pod);
  }

  lemma SweepBacksServices(s: Sys, pod: PodName, store': Store)
    requires Identity(s) && ServicesBacked(s) && Unclaimed(s.store, s.creators, pod)
    requires store' == s.store.(pods := s.store.pods - {pod})
    ensures ServicesBacked(s.(store := store'))
  {
    forall id | id in store'.services ensures Backed(store', s.creators, id) {
      assert Backed(s.store, s.creators, id);
    }
    forall c | c in s.creators ensures PodReady(store', c, s.creators[c]) {
      assert PodReady(s.store, c, s.creators[c]);
    }
  }

  lemma CleanerWorkBacksServices(s: Sys, k: nat, a: WorkerAction, s': Sys)
    requires Identity(s) && ServicesBacked(s) && Benign(s, Clean(k, Work(a))) && Next(s, Clean(k, Work(a))) == Some(s')
    ensures ServicesBacked(s')
  {
    var c, c' := s.cleaners[k], s'.cleaners[k];
    assert CleanerOk(s, c);
    var (store', w') := WorkerStep(s.store, c.doing.worker, a).value;
    WorkerBacksServices(s, c.doing.worker, a, store', w');
    assert c'.doing.Busy? ==> c'.doing.worker == w';
  }

  /** Whoever a cleanup cycle begins with, it has deleted nothing of it yet. */
  lemma CleanerBegins(s: Sys, k: nat, does: CleanerAction, s': Sys)
    requires Next(s, Clean(k, does)) == Some(s') && !does.Work?
    ensures s'.creators == s.creators && s'.workers == s.workers && s'.cleaners == s.cleaners[k := s'.cleaners[k]]
    ensures does.Sweep? || s'.store == s.store
    ensures s'.cleaners[k].doing.Busy? ==>
              !s'.cleaners[k].doing.worker.pc.DropPod? && !s'.cleaners[k].doing.worker.pc.DropRecord?
  {
  }

  lemma CleanerBacksServices(s: Sys, k: nat, does: CleanerAction, s': Sys)
    requires Identity(s) && SweepsUnclaimed(s) && ServicesBacked(s) && Benign(s, Clean(k, does)) && Next(s, Clean(k, does)) == Some(s')
    ensures ServicesBacked(s')
  {
    if does.Work? {
      CleanerWorkBacksServices(s, k, does.a, s');
    } else {
      CleanerBegins(s, k, does, s');
      if does.Sweep? { SweepBacksServices(s, s.cleaners[k].doing.pod, s'.store); }
    }
  }

  lemma StepBacksServices(s: Sys, e: Event, s': Sys)
    requires Identity(s) && SweepsUnclaimed(s) && ServicesBacked(s) && Benign(s, e) && Next(s, e) == Some(s')
    ensures ServicesBacked(s')
  {
    match e
    case Create(c, act) => CreatorBacksServices(s, c, act, s');
    case Advance(w, a) => WorkerBacksServices(s, s.workers[w], a, s'.store, s'.workers[w]);
    case Clean(k, does) => CleanerBacksServices(s, k, does, s');
    case _ => EnvironmentBacksServices(s, e, s');
  }

  lemma EnvironmentBacksServices(s: Sys, e: Event, s': Sys)
    requires Identity(s) && ServicesBacked(s) && Benign(s, e) && Next(s, e) == Some(s')
    requires !e.Create? && !e.Advance? && !e.Clean?
    ensures ServicesBacked(s')
  {
    forall id | id in s'.store.services ensures Backed(s'.store, s'.creators, id) {
      assert Backed(s.store, s.creators, id);
    }
    forall c | c in s'.creators ensures PodReady(s'.store, c, s'.creators[c]) {
      assert c in s.creators ==> PodReady(s.store, c, s.creators[c]);
    }
  }

  lemma {:induction false} ServicesBackedInRun(run: seq<Sys>, es: seq<Event>, n: nat)
    requires IsRun(run, es) && n < |run|
    requires forall i :: 0 <= i < n ==> Timely(run[i]) && Benign(run[i], es[i])
    ensures ServicesBacked(run[n])
  {
    if n > 0 {
      ServicesBackedInRun(run, es, n - 1);
      SweepsUnclaimedInRun(run, es, n - 1);
      IdentityHolds(run, es, n - 1);
      StepBacksServices(run[n - 1], es[n - 1], run[n]);
    }
  }

  /**
   When service deletes succeed, no pod vanishes on its own and creates commit within the grace,
   every node port of every Service is taken in the repository: by the same stack, or by the
   create that made the Service.
   */
  lemma ServicesUseTakenPorts(run: seq<Sys>, es: seq<Event>, n: nat)
    requires IsRun(run, es) && n < |run|
    requires forall i :: 0 <= i < n ==> Timely(run[i]) && Benign(run[i], es[i])
    ensures forall id, p :: id in run[n].store.services && p in run[n].store.services[id] ==>
              p in run[n].store.ports
              && run[n].store.ports[p] == (if id in run[n].store.stacks then id else "")
  {
    ServicesBackedInRun(run, es, n);
    PortsAreConserved(run, es, n);
    IdentityHolds(run, es, n);
    var s := run[n];
    forall id, p | id in s.store.services && p in s.store.services[id]
      ensures p in s.store.ports && s.store.ports[p] == (if id in s.store.stacks then id else "")
    {
      if id in s.store.stacks {
        assert OwnedBy(s.store.ports, id, s.store.stacks[id].ports);
      } else {
        assert HeldIn(s.store.ports, s.creators[id].held);
      }
    }
  }
}
