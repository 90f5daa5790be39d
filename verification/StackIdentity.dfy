/** What names mean in every interleaving: whose pod a name is, and which record a copy is of. */
module StackIdentity {
  import opened Types
  import opened Reconciliation

  /** Equal in everything but the node, which a refresh may rewrite. */
  predicate SameRecord(a: Record, b: Record) {
    a.pod == b.pod && a.ports == b.ports && a.ttl == b.ttl
  }

  predicate Finished(creators: map<string, Creator>, id: string) {
    id in creators && creators[id].pc.Done?
  }

  /** The pod called `p` was made by the creator of its stack, in this attempt or an earlier one. */
  predicate Known(creators: map<string, Creator>, p: PodName, obj: PodObject) {
    p.StackPod? ==>
      && p.id in creators && obj.stackID == p.id && p.id != ""
      && (p.attempt < creators[p.id].attempt
          || (p.attempt == creators[p.id].attempt && creators[p.id].made && obj.createdAt == Some(creators[p.id].podAt)))
  }

  /** `rec` is a copy of the record of `id`, live or deleted. */
  predicate CopyOf(store: Store, creators: map<string, Creator>, id: string, rec: Record) {
    && Finished(creators, id)
    && rec.pod == StackPod(id, creators[id].attempt)
    && (id in store.stacks ==> SameRecord(store.stacks[id], rec))
  }

  ghost predicate CleanerOk(s: Sys, k: Cleaner) {
    && k.now <= s.clock && k.since < s.steps
    && (forall id :: id in k.seen ==> CopyOf(s.store, s.creators, id, k.seen[id]))
    && (k.infos.Some? ==> forall p :: p in k.infos.value ==> Known(s.creators, p, k.infos.value[p]))
    && (k.doing.Busy? ==> CopyOf(s.store, s.creators, k.doing.worker.id, k.doing.worker.rec))
    && (k.doing.Sweeping? ==> k.infos.Some? && k.doing.pod in k.infos.value)
  }

  /** The part of the invariant about records, creators and pods. */
  ghost predicate Rooted(s: Sys) {
    && "" !in s.creators
    && (forall id :: id in s.store.stacks ==>
          Finished(s.creators, id) && s.store.stacks[id].pod == StackPod(id, s.creators[id].attempt))
    && (forall c :: c in s.creators ==>
          && ((s.creators[c].pc.ServiceNext? || s.creators[c].pc.Waiting? || s.creators[c].pc.CommitNext?) ==> s.creators[c].made)
          && ((s.creators[c].pc.Reserving? || s.creators[c].pc.PodNext?) ==> !s.creators[c].made))
    && (forall p :: p in s.store.pods ==> Known(s.creators, p, s.store.pods[p]))
  }

  ghost predicate Identity(s: Sys) {
    && Rooted(s)
    && (forall w :: w in s.workers ==> CopyOf(s.store, s.creators, s.workers[w].id, s.workers[w].rec))
    && (forall k :: k in s.cleaners ==> CleanerOk(s, s.cleaners[k]))
  }

  /** What one step can do to creators and records. */
  ghost predicate Evolves(s: Sys, s': Sys) {
    && s.clock <= s'.clock && s'.steps == s.steps + 1
    && (forall c :: c in s.creators ==>
          && c in s'.creators
          && (s.creators[c].pc.Done? ==> s'.creators[c] == s.creators[c])
          && (s'.creators[c].attempt > s.creators[c].attempt
              || (s'.creators[c].attempt == s.creators[c].attempt
                  && (s.creators[c].made ==> s'.creators[c].made && s'.creators[c].podAt == s.creators[c].podAt))))
    && (forall id :: id in s'.store.stacks && Finished(s.creators, id) ==>
          id in s.store.stacks && SameRecord(s.store.stacks[id], s'.store.stacks[id]))
  }

  lemma WorkerKeepsRecords(store: Store, w: Worker, a: WorkerAction, store': Store, w': Worker)
    requires WorkerStep(store, w, a) == Some((store', w'))
    ensures forall id :: id in store'.stacks ==> id in store.stacks && SameRecord(store.stacks[id], store'.stacks[id])
    ensures forall p :: p in store'.pods ==> p in store.pods && store'.pods[p] == store.pods[p]
    ensures w'.id == w.id && w'.rec == w.rec
  {
  }

  lemma CleanerKeepsRecords(store: Store, k: Cleaner, does: CleanerAction, store': Store, k': Cleaner)
    requires CleanerStep(store, k, does) == Some((store', k'))
    ensures forall id :: id in store'.stacks ==> id in store.stacks && SameRecord(store.stacks[id], store'.stacks[id])
    ensures forall p :: p in store'.pods ==> p in store.pods && store'.pods[p] == store.pods[p]
  {
    if does.Work? {
      var (s', w') := WorkerStep(store, k.doing.worker, does.a).value;
      WorkerKeepsRecords(store, k.doing.worker, does.a, s', w');
    }
  }

  /** What one call of a creator does: to itself, to its record, and to its own pod at most. */
  lemma CreatorStepIsOwn(store: Store, clock: Time, c: string, k: Creator, act: CreatorAction, store': Store, k': Creator)
    requires CreatorStep(store, clock, c, k, act) == Some((store', k')) && (k.pc.PodNext? ==> !k.made)
    ensures !k.pc.Done?
    ensures k'.attempt > k.attempt || (k'.attempt == k.attempt && (k.made ==> k'.made && k'.podAt == k.podAt))
    ensures forall id :: id in store'.stacks && id != c ==> id in store.stacks && store'.stacks[id] == store.stacks[id]
    ensures c in store'.stacks ==>
              (c in store.stacks && store'.stacks[c] == store.stacks[c])
              || (k.pc.CommitNext? && k'.pc.Done? && k'.attempt == k.attempt && store'.stacks[c].pod == StackPod(c, k.attempt))
    ensures forall p :: p in store'.pods && p != StackPod(c, k.attempt) ==> p in store.pods && store'.pods[p] == store.pods[p]
    ensures StackPod(c, k.attempt) in store'.pods ==>
              var obj := store'.pods[StackPod(c, k.attempt)];
              (StackPod(c, k.attempt) in store.pods && obj == store.pods[StackPod(c, k.attempt)].(node := obj.node))
              || (obj.stackID == c && obj.createdAt == Some(k'.podAt) && k'.made && k'.attempt == k.attempt)
  {
  }

  lemma CreatorStepPcs(store: Store, clock: Time, c: string, k: Creator, act: CreatorAction, store': Store, k': Creator)
    requires CreatorStep(store, clock, c, k, act) == Some((store', k'))
    requires (k.pc.ServiceNext? || k.pc.Waiting? || k.pc.CommitNext?) ==> k.made
    requires (k.pc.Reserving? || k.pc.PodNext?) ==> !k.made
    ensures (k'.pc.ServiceNext? || k'.pc.Waiting? || k'.pc.CommitNext?) ==> k'.made
    ensures (k'.pc.Reserving? || k'.pc.PodNext?) ==> !k'.made
  {
  }

  lemma OwnStepEvolves(s: Sys, c: string, k': Creator, s': Sys)
    requires c in s.creators && !s.creators[c].pc.Done?
    requires s'.creators == s.creators[c := k'] && s'.clock == s.clock && s'.steps == s.steps + 1
    requires var k := s.creators[c];
             k'.attempt > k.attempt || (k'.attempt == k.attempt && (k.made ==> k'.made && k'.podAt == k.podAt))
    requires forall id :: id in s'.store.stacks && id != c ==> id in s.store.stacks && s'.store.stacks[id] == s.store.stacks[id]
    ensures Evolves(s, s')
  {
  }

  lemma CreateEvolves(s: Sys, c: string, act: CreatorAction, s': Sys)
    requires Identity(s) && Next(s, Create(c, act)) == Some(s')
    ensures Evolves(s, s')
  {
    CreatorStepIsOwn(s.store, s.clock, c, s.creators[c], act, s'.store, s'.creators[c]);
    OwnStepEvolves(s, c, s'.creators[c], s');
  }

  /** Steps of refreshes, deletions and cleanups leave the creators alone. */
  lemma KeptRecordsEvolve(s: Sys, s': Sys)
    requires s'.creators == s.creators && s'.clock == s.clock && s'.steps == s.steps + 1
    requires forall id :: id in s'.store.stacks ==> id in s.store.stacks && SameRecord(s.store.stacks[id], s'.store.stacks[id])
    ensures Evolves(s, s')
  {
  }

  lemma OthersEvolve(s: Sys, e: Event, s': Sys)
    requires Next(s, e) == Some(s') && !e.Create? && !e.Advance? && !e.Clean?
    ensures Evolves(s, s')
  {
  }

  lemma StepEvolves(s: Sys, e: Event, s': Sys)
    requires Identity(s) && Next(s, e) == Some(s')
    ensures Evolves(s, s')
  {
    if e.Create? {
      CreateEvolves(s, e.c, e.act, s');
    } else if e.Advance? {
      WorkerKeepsRecords(s.store, s.workers[e.w], e.a, s'.store, s'.workers[e.w]);
      KeptRecordsEvolve(s, s');
    } else if e.Clean? {
      CleanerKeepsRecords(s.store, s.cleaners[e.k], e.does, s'.store, s'.cleaners[e.k]);
      KeptRecordsEvolve(s, s');
    } else {
      OthersEvolve(s, e, s');
    }
  }

  lemma CopiesLast(s: Sys, s': Sys, id: string, rec: Record)
    requires Identity(s) && Evolves(s, s') && CopyOf(s.store, s.creators, id, rec)
    ensures CopyOf(s'.store, s'.creators, id, rec)
  {
  }

  lemma CleanersLast(s: Sys, s': Sys, k: Cleaner)
    requires Identity(s) && Evolves(s, s') && CleanerOk(s, k)
    ensures CleanerOk(s', k)
  {
    forall id | id in k.seen ensures CopyOf(s'.store, s'.creators, id, k.seen[id]) { CopiesLast(s, s', id, k.seen[id]); }
    if k.doing.Busy? { CopiesLast(s, s', k.doing.worker.id, k.doing.worker.rec); }
  }

  /** What a cleaner that is not at work may begin: each of its copies is of a record it has read. */
  lemma CleanerBeginsOk(s: Sys, k: nat, does: CleanerAction, s': Sys)
    requires Identity(s) && Next(s, Clean(k, does)) == Some(s') && !does.Work? && s'.creators == s.creators
    requires CleanerOk(s', s.cleaners[k]) && Rooted(s)
    requires does.Sweep? || s'.store == s.store
    ensures CleanerOk(s', s'.cleaners[k])
  {
  }

  lemma CleanerWorksOk(s: Sys, k: nat, a: WorkerAction, s': Sys)
    requires Next(s, Clean(k, Work(a))) == Some(s') && CleanerOk(s', s.cleaners[k])
    ensures CleanerOk(s', s'.cleaners[k])
  {
    var c := s.cleaners[k];
    var (store', w') := WorkerStep(s.store, c.doing.worker, a).value;
    WorkerKeepsRecords(s.store, c.doing.worker, a, store', w');
  }

  lemma IdleKeepsStore(s: Sys, k: nat, does: CleanerAction, s': Sys)
    requires Next(s, Clean(k, does)) == Some(s') && !does.Work?
    ensures s'.creators == s.creators && (does.Sweep? || s'.store == s.store)
  {
  }

  lemma CleanerStepOk(s: Sys, k: nat, does: CleanerAction, s': Sys)
    requires Identity(s) && Next(s, Clean(k, does)) == Some(s') && Evolves(s, s')
    ensures CleanerOk(s', s'.cleaners[k])
  {
    CleanersLast(s, s', s.cleaners[k]);
    if does.Work? {
      CleanerWorksOk(s, k, does.a, s');
    } else {
      IdleKeepsStore(s, k, does, s');
      CleanerBeginsOk(s, k, does, s');
    }
  }

  lemma CreateKeepsPodsKnown(s: Sys, c: string, act: CreatorAction, s': Sys)
    requires Identity(s) && Next(s, Create(c, act)) == Some(s')
    ensures forall p :: p in s'.store.pods ==> Known(s'.creators, p, s'.store.pods[p])
  {
    CreatorStepIsOwn(s.store, s.clock, c, s.creators[c], act, s'.store, s'.creators[c]);
    forall p | p in s'.store.pods ensures Known(s'.creators, p, s'.store.pods[p]) {
      assert p in s.store.pods ==> Known(s.creators, p, s.store.pods[p]);
    }
  }

  lemma CreateKeepsRoots(s: Sys, c: string, act: CreatorAction, s': Sys)
    requires Identity(s) && Next(s, Create(c, act)) == Some(s')
    ensures Rooted(s')
  {
    CreateKeepsPodsKnown(s, c, act, s');
    CreatorStepIsOwn(s.store, s.clock, c, s.creators[c], act, s'.store, s'.creators[c]);
    CreatorStepPcs(s.store, s.clock, c, s.creators[c], act, s'.store, s'.creators[c]);
  }

  lemma KeptRecordsKeepRoots(s: Sys, s': Sys)
    requires Rooted(s) && s'.creators == s.creators
    requires forall id :: id in s'.store.stacks ==> id in s.store.stacks && SameRecord(s.store.stacks[id], s'.store.stacks[id])
    requires forall p :: p in s'.store.pods ==> p in s.store.pods && s'.store.pods[p] == s.store.pods[p]
    ensures Rooted(s')
  {
  }

  lemma OthersKeepRoots(s: Sys, e: Event, s': Sys)
    requires Rooted(s) && Next(s, e) == Some(s') && !e.Create? && !e.Advance? && !e.Clean?
    ensures Rooted(s')
  {
  }

  lemma StepKeepsRoots(s: Sys, e: Event, s': Sys)
    requires Identity(s) && Next(s, e) == Some(s') && Evolves(s, s')
    ensures Rooted(s')
  {
    match e
    case Create(c, act) => CreateKeepsRoots(s, c, act, s');
    case Advance(w, a) =>
      WorkerKeepsRecords(s.store, s.workers[w], a, s'.store, s'.workers[w]);
      KeptRecordsKeepRoots(s, s');
    case Clean(k, does) =>
      CleanerKeepsRecords(s.store, s.cleaners[k], does, s'.store, s'.cleaners[k]);
      KeptRecordsKeepRoots(s, s');
    case _ => OthersKeepRoots(s, e, s');
  }

  /** A worker keeps its copy, and begins with one of a live record. */
  lemma WorkerOfStep(s: Sys, e: Event, s': Sys, w: nat)
    requires Next(s, e) == Some(s') && w in s'.workers
    ensures if w in s.workers then s'.workers[w].id == s.workers[w].id && s'.workers[w].rec == s.workers[w].rec
            else && s'.store == s.store && s'.creators == s.creators && s'.workers[w].id in s.store.stacks
                 && s'.workers[w].rec == s.store.stacks[s'.workers[w].id]
  {
    if e.Advance? && e.w == w { WorkerKeepsRecords(s.store, s.workers[w], e.a, s'.store, s'.workers[w]); }
  }

  lemma WorkersStayOk(s: Sys, e: Event, s': Sys, w: nat)
    requires Identity(s) && Next(s, e) == Some(s') && Evolves(s, s') && w in s'.workers
    ensures CopyOf(s'.store, s'.creators, s'.workers[w].id, s'.workers[w].rec)
  {
    WorkerOfStep(s, e, s', w);
    if w in s.workers { CopiesLast(s, s', s.workers[w].id, s.workers[w].rec); }
  }

  lemma CleanerOfStep(s: Sys, e: Event, s': Sys, k: nat)
    requires Next(s, e) == Some(s') && k in s'.cleaners
    ensures if e == StartCycle(k) then s'.cleaners[k] == Cleaner(s.clock, s.steps, {}, map[], None, None, None, Idle)
            else if e.Clean? && e.k == k then k in s.cleaners && CleanerStep(s.store, s.cleaners[k], e.does) == Some((s'.store, s'.cleaners[k]))
            else k in s.cleaners && s'.cleaners[k] == s.cleaners[k]
  {
  }

  lemma CleanersStayOk(s: Sys, e: Event, s': Sys, k: nat)
    requires Identity(s) && Next(s, e) == Some(s') && Evolves(s, s') && k in s'.cleaners
    ensures CleanerOk(s', s'.cleaners[k])
  {
    CleanerOfStep(s, e, s', k);
    if e.Clean? && e.k == k {
      CleanerStepOk(s, k, e.does, s');
    } else if e != StartCycle(k) {
      CleanersLast(s, s', s.cleaners[k]);
    }
  }

  lemma StepKeepsIdentity(s: Sys, e: Event, s': Sys)
    requires Identity(s) && Next(s, e) == Some(s')
    ensures Identity(s') && Evolves(s, s')
  {
    StepEvolves(s, e, s');
    StepKeepsRoots(s, e, s');
    forall w | w in s'.workers ensures CopyOf(s'.store, s'.creators, s'.workers[w].id, s'.workers[w].rec) {
      WorkersStayOk(s, e, s', w);
    }
    forall k | k in s'.cleaners ensures CleanerOk(s', s'.cleaners[k]) {
      CleanersStayOk(s, e, s', k);
    }
  }

  lemma {:induction false} IdentityHolds(run: seq<Sys>, es: seq<Event>, n: nat)
    requires IsRun(run, es) && n < |run|
    ensures Identity(run[n])
  {
    if n > 0 {
      IdentityHolds(run, es, n - 1);
      StepKeepsIdentity(run[n - 1], es[n - 1], run[n]);
    }
  }
}
