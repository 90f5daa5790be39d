/**
 A cleanup cycle removes a record only on evidence: the stack had expired when the cycle
 began, or while the record was live, and before the cycle had deleted anything of that
 stack, its node was gone, its pod was lost or absent, or its service was absent.
 */
module RemovalEvidence {
  import opened Types
  import opened Reconciliation
  import opened StackIdentity

  // ---------- What a cycle has seen ----------

  /** At a state from `from` to `to`, this was the record of `id`. */
  ghost predicate WasLive(run: seq<Sys>, from: nat, to: nat, id: string, rec: Record) {
    exists i :: from <= i <= to && i < |run| && id in run[i].store.stacks && run[i].store.stacks[id] == rec
  }

  /** Something the stack needs is missing. */
  predicate Lapsed(store: Store, id: string, rec: Record) {
    rec.node !in store.nodes || rec.pod !in store.pods || store.pods[rec.pod].lost || id !in store.services
  }

  /** After the record was read, within the same cycle, something it needs was missing. */
  ghost predicate Witnessed(run: seq<Sys>, from: nat, to: nat, id: string, rec: Record) {
    exists j :: from <= j <= to && j < |run| && WasLive(run, from, j, id, rec) && Lapsed(run[j].store, id, rec)
  }

  ghost predicate SeenBy(run: seq<Sys>, from: nat, to: nat, seen: map<string, Record>) {
    forall id :: id in seen ==> WasLive(run, from, to, id, seen[id])
  }

  /** The listing of pods was taken after the stacks were read. */
  ghost predicate PodsListed(run: seq<Sys>, to: nat, k: Cleaner) {
    k.pods.Some? ==>
      exists j :: k.since <= j <= to && j < |run| && k.pods.value == run[j].store.pods.Keys && SeenBy(run, k.since, j, k.seen)
  }

  ghost predicate ServicesListed(run: seq<Sys>, to: nat, k: Cleaner) {
    k.services.Some? ==>
      && k.pods.Some?
      && exists j :: k.since <= j <= to && j < |run| && k.services.value == run[j].store.services.Keys && SeenBy(run, k.since, j, k.seen)
  }

  predicate Dropping(w: Worker) {
    w.pc.DropService? || w.pc.DropPod? || w.pc.DropRecord?
  }

  ghost predicate WorkerGrounded(run: seq<Sys>, from: nat, to: nat, now: Time, w: Worker) {
    && WasLive(run, from, to, w.id, w.rec)
    && (Dropping(w) ==> w.rec.ttl <= now || Witnessed(run, from, to, w.id, w.rec))
  }

  ghost predicate Grounded(run: seq<Sys>, to: nat, k: Cleaner) {
    && k.since <= to
    && SeenBy(run, k.since, to, k.seen)
    && PodsListed(run, to, k)
    && ServicesListed(run, to, k)
    && (k.doing.Busy? ==> WorkerGrounded(run, k.since, to, k.now, k.doing.worker))
  }

  lemma LiveNow(run: seq<Sys>, from: nat, n: nat, id: string)
    requires from <= n < |run| && id in run[n].store.stacks
    ensures WasLive(run, from, n, id, run[n].store.stacks[id])
  {
  }

  lemma StaysSeen(run: seq<Sys>, from: nat, n: nat, m: nat, seen: map<string, Record>)
    requires SeenBy(run, from, n, seen) && n <= m
    ensures SeenBy(run, from, m, seen)
  {
    forall id | id in seen ensures WasLive(run, from, m, id, seen[id]) {
      assert WasLive(run, from, n, id, seen[id]);
    }
  }

  lemma StaysGrounded(run: seq<Sys>, n: nat, m: nat, k: Cleaner)
    requires Grounded(run, n, k) && n <= m
    ensures Grounded(run, m, k)
  {
    StaysSeen(run, k.since, n, m, k.seen);
  }

  lemma WorkerStaysGrounded(run: seq<Sys>, from: nat, n: nat, now: Time, w: Worker, a: WorkerAction, store': Store, w': Worker)
    requires from <= n < |run| && WorkerGrounded(run, from, n, now, w)
    requires WorkerStep(run[n].store, w, a) == Some((store', w'))
    ensures WorkerGrounded(run, from, n, now, w')
  {
    if Dropping(w') && !Dropping(w) {
      assert Lapsed(run[n].store, w.id, w.rec);
    }
  }

  /** An absence from the listings is an absence from the cluster, after the record was read. */
  lemma MissingIsWitnessed(run: seq<Sys>, n: nat, k: Cleaner, id: string)
    requires n < |run| && Grounded(run, n, k) && id in k.seen && k.pods.Some? && k.services.Some?
    requires !(k.seen[id].pod in k.pods.value && id in k.services.value)
    ensures Witnessed(run, k.since, n, id, k.seen[id])
  {
    if k.seen[id].pod !in k.pods.value {
      var j :| k.since <= j <= n && j < |run| && k.pods.value == run[j].store.pods.Keys && SeenBy(run, k.since, j, k.seen);
      assert WasLive(run, k.since, j, id, k.seen[id]) && Lapsed(run[j].store, id, k.seen[id]);
    } else {
      var j :| k.since <= j <= n && j < |run| && k.services.value == run[j].store.services.Keys && SeenBy(run, k.since, j, k.seen);
      assert WasLive(run, k.since, j, id, k.seen[id]) && Lapsed(run[j].store, id, k.seen[id]);
    }
  }

  /** The part of a cycle's grounds that is about what it has listed and read. */
  ghost predicate ListingsGrounded(run: seq<Sys>, to: nat, k: Cleaner) {
    k.since <= to && SeenBy(run, k.since, to, k.seen) && PodsListed(run, to, k) && ServicesListed(run, to, k)
  }

  /** Listing and reading back, of stacks, pods and services. */
  lemma ListingStaysGrounded(run: seq<Sys>, n: nat, k: Cleaner, does: CleanerAction, store': Store, k': Cleaner)
    requires n < |run| && ListingsGrounded(run, n, k) && CleanerStep(run[n].store, k, does) == Some((store', k'))
    requires does.ListStacks? || does.ListPods? || does.ListServices? || does.ReadBack?
    ensures ListingsGrounded(run, n, k') && k'.doing == k.doing && k'.since == k.since && k'.now == k.now
  {
    if does.ReadBack? && does.id in run[n].store.stacks { LiveNow(run, k.since, n, does.id); }
  }

  /** Every other action leaves the listings alone. */
  lemma ListingsKept(store: Store, k: Cleaner, does: CleanerAction, store': Store, k': Cleaner)
    requires CleanerStep(store, k, does) == Some((store', k'))
    requires !does.ListStacks? && !does.ListPods? && !does.ListServices? && !does.ReadBack?
    ensures k'.since == k.since && k'.now == k.now && k'.seen == k.seen && k'.pods == k.pods && k'.services == k.services
  {
  }

  lemma SameListings(run: seq<Sys>, n: nat, k: Cleaner, k': Cleaner)
    requires ListingsGrounded(run, n, k)
    requires k'.since == k.since && k'.now == k.now && k'.seen == k.seen && k'.pods == k.pods && k'.services == k.services
    ensures ListingsGrounded(run, n, k')
  {
  }

  /** Whatever the cycle sets to work on, it has grounds for. */
  lemma WorkStaysGrounded(run: seq<Sys>, n: nat, k: Cleaner, does: CleanerAction, store': Store, k': Cleaner)
    requires n < |run| && Grounded(run, n, k) && CleanerStep(run[n].store, k, does) == Some((store', k')) && k'.doing.Busy?
    ensures WorkerGrounded(run, k.since, n, k.now, k'.doing.worker)
  {
    if does.Work? {
      var (s', w') := WorkerStep(run[n].store, k.doing.worker, does.a).value;
      WorkerStaysGrounded(run, k.since, n, k.now, k.doing.worker, does.a, s', w');
    } else if does.DropMissing? {
      MissingIsWitnessed(run, n, k, does.id);
      assert WasLive(run, k.since, n, does.id, k.seen[does.id]);
    } else if does.Expire? {
      assert WasLive(run, k.since, n, does.id, k.seen[does.id]);
    } else {
      LiveNow(run, k.since, n, does.id);
    }
  }

  lemma ActionStaysGrounded(run: seq<Sys>, n: nat, k: Cleaner, does: CleanerAction, store': Store, k': Cleaner)
    requires n < |run| && Grounded(run, n, k) && CleanerStep(run[n].store, k, does) == Some((store', k'))
    ensures Grounded(run, n, k')
  {
    if does.ListStacks? || does.ListPods? || does.ListServices? || does.ReadBack? {
      ListingStaysGrounded(run, n, k, does, store', k');
    } else {
      ListingsKept(run[n].store, k, does, store', k');
      SameListings(run, n, k, k');
      if k'.doing.Busy? { WorkStaysGrounded(run, n, k, does, store', k'); }
    }
  }

  lemma StepIsCounted(s: Sys, e: Event, s': Sys)
    requires Next(s, e) == Some(s')
    ensures s'.steps == s.steps + 1
  {
  }

  lemma {:induction false} StepsCount(run: seq<Sys>, es: seq<Event>, n: nat)
    requires IsRun(run, es) && n < |run|
    ensures run[n].steps == n
  {
    if n > 0 {
      StepsCount(run, es, n - 1);
      StepIsCounted(run[n - 1], es[n - 1], run[n]);
    }
  }

  lemma CycleBegins(run: seq<Sys>, es: seq<Event>, n: nat, k: nat)
    requires IsRun(run, es) && 0 < n < |run| && k in run[n].cleaners && es[n - 1] == StartCycle(k)
    ensures Grounded(run, n, run[n].cleaners[k])
  {
    CleanerOfStep(run[n - 1], es[n - 1], run[n], k);
    StepsCount(run, es, n - 1);
  }

  lemma CycleGoesOn(run: seq<Sys>, es: seq<Event>, n: nat, k: nat)
    requires IsRun(run, es) && 0 < n < |run| && k in run[n].cleaners
    requires k in run[n - 1].cleaners && Grounded(run, n - 1, run[n - 1].cleaners[k]) && es[n - 1] != StartCycle(k)
    ensures Grounded(run, n, run[n].cleaners[k])
  {
    CleanerOfStep(run[n - 1], es[n - 1], run[n], k);
    if es[n - 1].Clean? && es[n - 1].k == k {
      ActionStaysGrounded(run, n - 1, run[n - 1].cleaners[k], es[n - 1].does, run[n].store, run[n].cleaners[k]);
    }
    StaysGrounded(run, n - 1, n, run[n].cleaners[k]);
  }

  lemma {:induction false} CyclesAreGrounded(run: seq<Sys>, es: seq<Event>, n: nat, k: nat)
    requires IsRun(run, es) && n < |run| && k in run[n].cleaners
    ensures Grounded(run, n, run[n].cleaners[k])
  {
    if n > 0 {
      if es[n - 1] == StartCycle(k) {
        CycleBegins(run, es, n, k);
      } else {
        CleanerOfStep(run[n - 1], es[n - 1], run[n], k);
        CyclesAreGrounded(run, es, n - 1, k);
        CycleGoesOn(run, es, n, k);
      }
    }
  }

  // ---------- From evidence to the record removed ----------

  /** A record that is live later was live at every moment since it was first seen. */
  lemma {:induction false} LiveBetween(run: seq<Sys>, es: seq<Event>, i: nat, j: nat, n: nat, id: string)
    requires IsRun(run, es) && i <= j <= n < |run| && id in run[i].store.stacks && id in run[n].store.stacks
    ensures id in run[j].store.stacks && SameRecord(run[j].store.stacks[id], run[n].store.stacks[id])
    decreases n - j
  {
    if j < n {
      LiveBetween(run, es, i, j + 1, n, id);
      IdentityHolds(run, es, j);
      StaysFinished(run, es, i, j, id);
      StepKeepsIdentity(run[j], es[j], run[j + 1]);
    }
  }

  lemma {:induction false} StaysFinished(run: seq<Sys>, es: seq<Event>, i: nat, j: nat, id: string)
    requires IsRun(run, es) && i <= j < |run| && id in run[i].store.stacks
    ensures StackIdentity.Finished(run[j].creators, id)
    decreases j - i
  {
    if i == j {
      IdentityHolds(run, es, i);
    } else {
      StaysFinished(run, es, i, j - 1, id);
      IdentityHolds(run, es, j - 1);
      FinishedLasts(run[j - 1], es[j - 1], run[j], id);
    }
  }

  lemma FinishedLasts(s: Sys, e: Event, s': Sys, id: string)
    requires Identity(s) && Next(s, e) == Some(s') && StackIdentity.Finished(s.creators, id)
    ensures StackIdentity.Finished(s'.creators, id)
  {
    StepEvolves(s, e, s');
  }

  /**
   Two moments of the cycle, the record live at both: as read at the first it had expired
   by `now`, or at the second its node, its pod or its service was missing.
   */
  ghost predicate Shows(run: seq<Sys>, i: nat, j: nat, now: Time, id: string) {
    && i <= j < |run|
    && id in run[i].store.stacks && id in run[j].store.stacks
    && SameRecord(run[i].store.stacks[id], run[j].store.stacks[id])
    && (run[i].store.stacks[id].ttl <= now || Lapsed(run[j].store, id, run[i].store.stacks[id]))
  }

  ghost predicate Evidence(run: seq<Sys>, since: nat, to: nat, now: Time, id: string) {
    exists i: nat, j: nat :: since <= i && j <= to && Shows(run, i, j, now, id)
  }

  /** This event is a call of cycle `k` that deletes something of stack `id`. */
  predicate Deletes(s: Sys, e: Event, k: nat, id: string) {
    && e.Clean? && e.k == k && e.does.Work? && k in s.cleaners
    && s.cleaners[k].doing.Busy? && Dropping(s.cleaners[k].doing.worker) && s.cleaners[k].doing.worker.id == id
  }

  lemma DeletesOnEvidence(run: seq<Sys>, es: seq<Event>, n: nat, k: nat, id: string)
    requires IsRun(run, es) && n < |es| && Deletes(run[n], es[n], k, id) && id in run[n].store.stacks
    ensures Evidence(run, run[n].cleaners[k].since, n, run[n].cleaners[k].now, id)
  {
    var c := run[n].cleaners[k];
    var rec := c.doing.worker.rec;
    CyclesAreGrounded(run, es, n, k);
    if rec.ttl <= c.now {
      var i :| c.since <= i <= n && i < |run| && id in run[i].store.stacks && run[i].store.stacks[id] == rec;
      assert Shows(run, i, i, c.now, id);
    } else {
      var j :| c.since <= j <= n && j < |run| && WasLive(run, c.since, j, id, rec) && Lapsed(run[j].store, id, rec);
      var i :| c.since <= i <= j && i < |run| && id in run[i].store.stacks && run[i].store.stacks[id] == rec;
      LiveBetween(run, es, i, j, n, id);
      LiveBetween(run, es, i, i, n, id);
      assert Shows(run, i, j, c.now, id);
    }
  }

  /** A cycle keeps the time and the step it began at. */
  lemma {:induction false} SameCycle(run: seq<Sys>, es: seq<Event>, t: nat, n: nat, k: nat)
    requires IsRun(run, es) && t <= n < |run| && k in run[n].cleaners && run[n].cleaners[k].since < t
    ensures k in run[t].cleaners && run[t].cleaners[k].since == run[n].cleaners[k].since && run[t].cleaners[k].now == run[n].cleaners[k].now
    decreases n - t
  {
    if t < n {
      CleanerOfStep(run[n - 1], es[n - 1], run[n], k);
      StepsCount(run, es, n - 1);
      SameCycle(run, es, t, n - 1, k);
    }
  }

  /** The first call of the cycle that deletes something of the stack. */
  lemma FirstDeletion(run: seq<Sys>, es: seq<Event>, since: nat, n: nat, k: nat, id: string) returns (d: nat)
    requires since <= n < |es| && |run| == |es| + 1 && Deletes(run[n], es[n], k, id)
    ensures since <= d <= n && Deletes(run[d], es[d], k, id)
    ensures forall t :: since <= t < d ==> !Deletes(run[t], es[t], k, id)
  {
    d := since;
    while !Deletes(run[d], es[d], k, id)
      invariant since <= d <= n
      invariant forall t :: since <= t < d ==> !Deletes(run[t], es[t], k, id)
      decreases n - d
    {
      d := d + 1;
    }
  }

  lemma RemovesByDeleting(s: Sys, k: nat, does: CleanerAction, s': Sys, id: string)
    requires Next(s, Clean(k, does)) == Some(s') && id in s.store.stacks && id !in s'.store.stacks
    ensures Deletes(s, Clean(k, does), k, id)
  {
  }

  /**
   Whatever a cleanup cycle removes, there was evidence against it in the same cycle: before
   the cycle's first deleting call for that stack, and while the record was live.
   */
  lemma RemovalHasEvidence(run: seq<Sys>, es: seq<Event>, n: nat, k: nat, id: string)
    requires IsRun(run, es) && n < |es| && es[n].Clean? && es[n].k == k
    requires id in run[n].store.stacks && id !in run[n + 1].store.stacks
    ensures k in run[n].cleaners
    ensures var c := run[n].cleaners[k];
            exists d :: c.since <= d <= n && Evidence(run, c.since, d, c.now, id)
                        && forall t :: c.since <= t < d ==> !Deletes(run[t], es[t], k, id)
  {
    assert Next(run[n], es[n]) == Some(run[n + 1]);
    RemovesByDeleting(run[n], k, es[n].does, run[n + 1], id);
    var c := run[n].cleaners[k];
    IdentityHolds(run, es, n);
    assert CleanerOk(run[n], c);
    StepsCount(run, es, n);
    var d := FirstDeletion(run, es, c.since, n, k, id);
    StartOfCycle(run, es, n, k);
    SameCycle(run, es, d, n, k);
    CyclesAreGrounded(run, es, d, k);
    StillLive(run, es, d, n, k, id);
    DeletesOnEvidence(run, es, d, k, id);
  }

  /** A cycle begins with the step that reads the clock. */
  lemma {:induction false} StartOfCycle(run: seq<Sys>, es: seq<Event>, n: nat, k: nat)
    requires IsRun(run, es) && n < |run| && k in run[n].cleaners
    ensures run[n].cleaners[k].since < n && es[run[n].cleaners[k].since] == StartCycle(k)
  {
    if n > 0 {
      CleanerOfStep(run[n - 1], es[n - 1], run[n], k);
      StepsCount(run, es, n - 1);
      if es[n - 1] != StartCycle(k) { StartOfCycle(run, es, n - 1, k); }
    }
  }

  lemma StillLive(run: seq<Sys>, es: seq<Event>, d: nat, n: nat, k: nat, id: string)
    requires IsRun(run, es) && d <= n < |es| && id in run[n].store.stacks
    requires Deletes(run[d], es[d], k, id) && Grounded(run, d, run[d].cleaners[k])
    ensures id in run[d].store.stacks
  {
    var c := run[d].cleaners[k];
    var i :| c.since <= i <= d && i < |run| && id in run[i].store.stacks && run[i].store.stacks[id] == c.doing.worker.rec;
    LiveBetween(run, es, i, d, n, id);
  }
}
