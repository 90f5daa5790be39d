/** In every interleaving the used ports are exactly those of live stacks and of creates in flight. */
module PortConservation {
  import opened Types
  import opened Repository
  import opened Reconciliation
  import opened StackIdentity

  ghost predicate OwnedBy(ports: map<int, string>, id: string, listed: seq<int>) {
    Distinct(listed) && forall p {:trigger p in listed} :: p in listed ==> p in ports && ports[p] == id
  }

  ghost predicate HeldIn(ports: map<int, string>, held: seq<int>) {
    Distinct(held) && forall p {:trigger p in held} :: p in held ==> p in ports && ports[p] == ""
  }

  predicate Apart(a: seq<int>, b: seq<int>) {
    forall p {:trigger p in a, p in b} :: p in a ==> p !in b
  }

  /** Live stacks own their ports; creators have theirs reserved; no port is listed or held twice. */
  ghost predicate Ledger(store: Store, creators: map<string, Creator>) {
    && "" !in store.stacks
    && (forall id :: id in store.stacks ==> OwnedBy(store.ports, id, store.stacks[id].ports))
    && (forall c :: c in creators ==> HeldIn(store.ports, creators[c].held))
    && (forall c, d :: c in creators && d in creators && c != d ==> Apart(creators[c].held, creators[d].held))
  }

  function Sizes(stacks: map<string, Record>): map<string, nat> {
    map id | id in stacks :: |stacks[id].ports|
  }

  function HeldSizes(creators: map<string, Creator>): map<string, nat> {
    map c | c in creators :: |creators[c].held|
  }

  /** As many used ports as live stacks list and creators hold. */
  ghost predicate Conserved(store: Store, creators: map<string, Creator>) {
    |store.ports| == Total(Sizes(store.stacks)) + Total(HeldSizes(creators))
  }

  lemma StackTotal(stacks: map<string, Record>, id: string, rec: Record)
    ensures Total(Sizes(stacks[id := rec])) == Total(Sizes(stacks)) - (if id in stacks then |stacks[id].ports| else 0) + |rec.ports|
  {
    TotalUpdate(Sizes(stacks), id, |rec.ports|);
    assert Sizes(stacks)[id := |rec.ports|] == Sizes(stacks[id := rec]);
  }

  lemma StackTotalWithout(stacks: map<string, Record>, id: string)
    requires id in stacks
    ensures Total(Sizes(stacks - {id})) == Total(Sizes(stacks)) - |stacks[id].ports|
  {
    TotalSplit(Sizes(stacks), id);
    assert Sizes(stacks) - {id} == Sizes(stacks - {id});
  }

  lemma CreatorTotal(creators: map<string, Creator>, c: string, k: Creator)
    ensures Total(HeldSizes(creators[c := k])) ==
              Total(HeldSizes(creators)) - (if c in creators then |creators[c].held| else 0) + |k.held|
  {
    TotalUpdate(HeldSizes(creators), c, |k.held|);
    assert HeldSizes(creators)[c := |k.held|] == HeldSizes(creators[c := k]);
  }

  // ---------- The ledger ----------

  /** Freeing the ports of one stack takes no port from another or from a creator. */
  lemma FreeingIsApart(ports: map<int, string>, id: string, listed: seq<int>)
    requires OwnedBy(ports, id, listed) && id != ""
    ensures forall k, other :: OwnedBy(ports, k, other) && k != id ==> OwnedBy(ports - Elements(listed), k, other)
    ensures forall held :: HeldIn(ports, held) ==> HeldIn(ports - Elements(listed), held)
  {
  }

  lemma FreeingCounts(ports: map<int, string>, id: string, listed: seq<int>)
    requires OwnedBy(ports, id, listed)
    ensures |ports - Elements(listed)| == |ports| - |listed|
  {
    DistinctCount(listed, Elements(listed));
    var rest := ports - Elements(listed);
    forall p | p in Elements(listed) ensures p in ports.Keys {
      assert p in listed;
    }
    assert ports.Keys == rest.Keys + Elements(listed);
    assert |ports.Keys| == |rest.Keys| + |Elements(listed)|;
  }

  lemma DropKeepsLedger(store: Store, creators: map<string, Creator>, id: string)
    requires Ledger(store, creators)
    ensures Ledger(DropStack(store, id), creators)
    ensures |DropStack(store, id).ports| == |store.ports| - (if id in store.stacks then |store.stacks[id].ports| else 0)
  {
    if id in store.stacks {
      FreeingIsApart(store.ports, id, store.stacks[id].ports);
      FreeingCounts(store.ports, id, store.stacks[id].ports);
    }
  }

  /** A port taken from the free ones is nobody's. */
  lemma ReserveKeepsLedger(store: Store, creators: map<string, Creator>, c: string, k': Creator, p: int)
    requires Ledger(store, creators) && c in creators && p !in store.ports && k'.held == creators[c].held + [p]
    ensures Ledger(store.(ports := store.ports[p := ""]), creators[c := k'])
  {
    forall d | d in creators ensures p !in creators[d].held {
      assert HeldIn(store.ports, creators[d].held);
    }
    forall d | d in creators && d != c ensures Apart(creators[d].held, k'.held) && Apart(k'.held, creators[d].held) {
      assert Apart(creators[d].held, creators[c].held) && Apart(creators[c].held, creators[d].held);
    }
    forall id | id in store.stacks ensures OwnedBy(store.ports[p := ""], id, store.stacks[id].ports) {
      assert OwnedBy(store.ports, id, store.stacks[id].ports);
    }
    forall q | q in k'.held ensures q in store.ports[p := ""] && store.ports[p := ""][q] == "" {
      if q != p { assert q in creators[c].held; }
    }
  }

  lemma ReleaseKeepsLedger(store: Store, creators: map<string, Creator>, c: string, k': Creator)
    requires Ledger(store, creators) && c in creators && creators[c].held != [] && k'.held == creators[c].held[1..]
    ensures creators[c].held[0] in store.ports && store.ports[creators[c].held[0]] == ""
    ensures Ledger(store.(ports := store.ports - {creators[c].held[0]}), creators[c := k'])
  {
    var held := creators[c].held;
    var p := held[0];
    assert HeldIn(store.ports, held) && p in held;
    forall d | d in creators && d != c ensures Apart(creators[d].held, k'.held) && Apart(k'.held, creators[d].held) && p !in creators[d].held {
      assert Apart(creators[d].held, held) && Apart(held, creators[d].held);
      forall q | q in k'.held ensures q in held {}
    }
    forall id | id in store.stacks ensures OwnedBy(store.ports - {p}, id, store.stacks[id].ports) {
      assert OwnedBy(store.ports, id, store.stacks[id].ports);
    }
    forall q | q in k'.held ensures q in held && q != p {}
  }

  lemma CommitKeepsLedger(store: Store, creators: map<string, Creator>, c: string, rec: Record, k': Creator)
    requires Ledger(store, creators) && c in creators && c != "" && c !in store.stacks
    requires rec.ports == creators[c].held && k'.held == []
    ensures Ledger(store.(stacks := store.stacks[c := rec], ports := Claim(store.ports, Elements(rec.ports), c)), creators[c := k'])
    ensures Claim(store.ports, Elements(rec.ports), c).Keys == store.ports.Keys
  {
    var ports' := Claim(store.ports, Elements(rec.ports), c);
    assert HeldIn(store.ports, rec.ports);
    forall p | p in Elements(rec.ports) ensures p in store.ports { assert p in rec.ports; }
    assert OwnedBy(ports', c, rec.ports);
    forall id | id in store.stacks ensures OwnedBy(ports', id, store.stacks[id].ports) {
      assert OwnedBy(store.ports, id, store.stacks[id].ports);
      forall p | p in store.stacks[id].ports ensures p !in rec.ports {
        assert p in store.ports && store.ports[p] == id;
      }
    }
    forall d | d in creators && d != c ensures HeldIn(ports', creators[d].held) {
      assert HeldIn(store.ports, creators[d].held) && Apart(creators[d].held, creators[c].held);
    }
  }

  lemma WorkerKeepsLedger(store: Store, creators: map<string, Creator>, w: Worker, a: WorkerAction, store': Store, w': Worker)
    requires Ledger(store, creators) && WorkerStep(store, w, a) == Some((store', w'))
    ensures Ledger(store', creators)
  {
    if w.pc.DropRecord? && a.Step? {
      DropKeepsLedger(store, creators, w.id);
    }
  }

  lemma CreatorKeepsLedger(s: Sys, c: string, act: CreatorAction, store': Store, k': Creator)
    requires "" !in s.creators && Ledger(s.store, s.creators) && c in s.creators
    requires CreatorStep(s.store, s.clock, c, s.creators[c], act) == Some((store', k'))
    ensures Ledger(store', s.creators[c := k'])
  {
    match act
    case Reserve(p) => ReserveKeepsLedger(s.store, s.creators, c, k', p);
    case Release => ReleaseKeepsLedger(s.store, s.creators, c, k');
    case Commit(ttl) =>
      if k'.pc.Done? { CommitKeepsLedger(s.store, s.creators, c, store'.stacks[c], k'); }
    case _ =>
      assert k'.held == s.creators[c].held;
  }

  lemma StepKeepsLedger(s: Sys, e: Event, s': Sys)
    requires "" !in s.creators && Ledger(s.store, s.creators) && Next(s, e) == Some(s')
    ensures Ledger(s'.store, s'.creators)
  {
    match e
    case Create(c, act) => CreatorKeepsLedger(s, c, act, s'.store, s'.creators[c]);
    case Advance(w, a) => WorkerKeepsLedger(s.store, s.creators, s.workers[w], a, s'.store, s'.workers[w]);
    case Clean(k, does) =>
      if does.Work? {
        var (store', w') := WorkerStep(s.store, s.cleaners[k].doing.worker, does.a).value;
        WorkerKeepsLedger(s.store, s.creators, s.cleaners[k].doing.worker, does.a, store', w');
      }
    case _ =>
  }

  // ---------- The count ----------

  lemma DropConserves(store: Store, creators: map<string, Creator>, id: string)
    requires Ledger(store, creators)
    ensures |DropStack(store, id).ports| - Total(Sizes(DropStack(store, id).stacks)) == |store.ports| - Total(Sizes(store.stacks))
  {
    DropKeepsLedger(store, creators, id);
    if id in store.stacks { StackTotalWithout(store.stacks, id); }
  }

  lemma TouchConserves(stacks: map<string, Record>, id: string, node: string)
    requires id in stacks
    ensures Total(Sizes(stacks[id := Moved(stacks[id], node)])) == Total(Sizes(stacks))
  {
    StackTotal(stacks, id, Moved(stacks[id], node));
  }

  /** A call of a refresh or a deletion drops its stack, rewrites its node, or leaves stacks and ports alone. */
  lemma WorkerCalls(store: Store, w: Worker, a: WorkerAction, store': Store, w': Worker)
    requires WorkerStep(store, w, a) == Some((store', w'))
    ensures (w.pc.DropRecord? && store'.ports == DropStack(store, w.id).ports && store'.stacks == DropStack(store, w.id).stacks)
            || (w.pc.Touch? && w.id in store.stacks && store'.ports == store.ports
                && store'.stacks == store.stacks[w.id := Moved(store.stacks[w.id], w.pc.node)])
            || (store'.ports == store.ports && store'.stacks == store.stacks)
  {
  }

  lemma WorkerConserves(store: Store, creators: map<string, Creator>, w: Worker, a: WorkerAction, store': Store, w': Worker)
    requires Ledger(store, creators) && Conserved(store, creators) && WorkerStep(store, w, a) == Some((store', w'))
    ensures Conserved(store', creators)
  {
    WorkerCalls(store, w, a, store', w');
    DropConserves(store, creators, w.id);
    if w.pc.Touch? && w.id in store.stacks { TouchConserves(store.stacks, w.id, w.pc.node); }
  }

  /** What a step adds to the used ports, over what it adds to stacks and creators. */
  ghost predicate Balanced(store: Store, k: Creator, store': Store, k': Creator) {
    |store'.ports| - Total(Sizes(store'.stacks)) - |k'.held| == |store.ports| - Total(Sizes(store.stacks)) - |k.held|
  }

  lemma ReserveBalances(store: Store, k: Creator, p: int)
    requires p !in store.ports
    ensures Balanced(store, k, store.(ports := store.ports[p := ""]), k.(held := k.held + [p]))
  {
  }

  lemma ReleaseBalances(store: Store, k: Creator, k': Creator)
    requires k.held != [] && k.held[0] in store.ports && k'.held == k.held[1..]
    ensures Balanced(store, k, store.(ports := store.ports - {k.held[0]}), k')
  {
    assert store.ports.Keys == (store.ports - {k.held[0]}).Keys + {k.held[0]};
    assert |store.ports| == |store.ports.Keys| && |store.ports - {k.held[0]}| == |(store.ports - {k.held[0]}).Keys|;
  }

  lemma CommitBalances(store: Store, k: Creator, c: string, rec: Record, store': Store, k': Creator)
    requires c !in store.stacks && rec.ports == k.held && k'.held == []
    requires store'.stacks == store.stacks[c := rec] && store'.ports.Keys == store.ports.Keys
    ensures Balanced(store, k, store', k')
  {
    StackTotal(store.stacks, c, rec);
    assert |store'.ports| == |store'.ports.Keys| && |store.ports| == |store.ports.Keys|;
  }

  /** Of all its calls, only reserving, releasing and committing change what a creator holds or what is used. */
  lemma OtherCallsBalance(s: Sys, c: string, act: CreatorAction, store': Store, k': Creator)
    requires c in s.creators && CreatorStep(s.store, s.clock, c, s.creators[c], act) == Some((store', k'))
    requires !act.Reserve? && !act.Release? && !(act.Commit? && k'.pc.Done?)
    ensures store'.ports == s.store.ports && store'.stacks == s.store.stacks && k'.held == s.creators[c].held
  {
  }

  lemma CreatorBalances(s: Sys, c: string, act: CreatorAction, store': Store, k': Creator)
    requires "" !in s.creators && Ledger(s.store, s.creators) && c in s.creators
    requires CreatorStep(s.store, s.clock, c, s.creators[c], act) == Some((store', k'))
    ensures Balanced(s.store, s.creators[c], store', k')
  {
    var store, k := s.store, s.creators[c];
    if act.Reserve? {
      ReserveBalances(store, k, act.port);
    } else if act.Release? {
      ReleaseKeepsLedger(store, s.creators, c, k');
      ReleaseBalances(store, k, k');
    } else if act.Commit? && k'.pc.Done? {
      CommitKeepsLedger(store, s.creators, c, store'.stacks[c], k');
      CommitBalances(store, k, c, store'.stacks[c], store', k');
    } else {
      OtherCallsBalance(s, c, act, store', k');
    }
  }

  lemma BalancedConserves(store: Store, creators: map<string, Creator>, c: string, store': Store, k': Creator)
    requires Conserved(store, creators) && c in creators && Balanced(store, creators[c], store', k')
    ensures Conserved(store', creators[c := k'])
  {
    CreatorTotal(creators, c, k');
  }

  lemma StepConserves(s: Sys, e: Event, s': Sys)
    requires "" !in s.creators && Ledger(s.store, s.creators) && Conserved(s.store, s.creators) && Next(s, e) == Some(s')
    ensures Conserved(s'.store, s'.creators)
  {
    match e
    case Create(c, act) =>
      CreatorBalances(s, c, act, s'.store, s'.creators[c]);
      BalancedConserves(s.store, s.creators, c, s'.store, s'.creators[c]);
    case Start(c) => CreatorTotal(s.creators, c, s'.creators[c]);
    case Advance(w, a) => WorkerConserves(s.store, s.creators, s.workers[w], a, s'.store, s'.workers[w]);
    case Clean(k, does) => CleanerConserves(s, k, does, s');
    case _ => OthersConserve(s, e, s');
  }

  lemma OthersConserve(s: Sys, e: Event, s': Sys)
    requires Next(s, e) == Some(s') && !e.Create? && !e.Start? && !e.Advance? && !e.Clean?
    ensures s'.store.ports == s.store.ports && s'.store.stacks == s.store.stacks && s'.creators == s.creators
  {
  }

  lemma IdleCallsConserve(s: Sys, k: nat, does: CleanerAction, s': Sys)
    requires Next(s, Clean(k, does)) == Some(s') && !does.Work?
    ensures s'.store.ports == s.store.ports && s'.store.stacks == s.store.stacks && s'.creators == s.creators
  {
  }

  lemma CleanerConserves(s: Sys, k: nat, does: CleanerAction, s': Sys)
    requires Ledger(s.store, s.creators) && Conserved(s.store, s.creators) && Next(s, Clean(k, does)) == Some(s')
    ensures Conserved(s'.store, s'.creators)
  {
    if does.Work? {
      var (store', w') := WorkerStep(s.store, s.cleaners[k].doing.worker, does.a).value;
      WorkerConserves(s.store, s.creators, s.cleaners[k].doing.worker, does.a, store', w');
    } else {
      IdleCallsConserve(s, k, does, s');
    }
  }

  lemma StepKeepsBooks(s: Sys, e: Event, s': Sys)
    requires Identity(s) && Ledger(s.store, s.creators) && Conserved(s.store, s.creators) && Next(s, e) == Some(s')
    ensures Ledger(s'.store, s'.creators) && Conserved(s'.store, s'.creators)
  {
    StepKeepsLedger(s, e, s');
    StepConserves(s, e, s');
  }

  lemma InitConserves(clock: Time, nodes: set<string>)
    ensures Conserved(Init(clock, nodes).store, Init(clock, nodes).creators) && Ledger(Init(clock, nodes).store, Init(clock, nodes).creators)
  {
    var s := Init(clock, nodes);
    assert Sizes(s.store.stacks) == map[] && HeldSizes(s.creators) == map[];
  }

  lemma RunStartsConserved(run: seq<Sys>, es: seq<Event>)
    requires IsRun(run, es)
    ensures Conserved(run[0].store, run[0].creators) && Ledger(run[0].store, run[0].creators)
  {
    var clock, nodes :| run[0] == Init(clock, nodes);
    InitConserves(clock, nodes);
  }

  lemma RunKeepsBooks(run: seq<Sys>, es: seq<Event>, n: nat)
    requires IsRun(run, es) && 0 < n < |run|
    requires Conserved(run[n - 1].store, run[n - 1].creators) && Ledger(run[n - 1].store, run[n - 1].creators)
    ensures Conserved(run[n].store, run[n].creators) && Ledger(run[n].store, run[n].creators)
  {
    IdentityHolds(run, es, n - 1);
    StepKeepsBooks(run[n - 1], es[n - 1], run[n]);
  }

  /**
   In every reachable state, the number of used ports is the number of ports of live stacks
   plus the number held by creates in flight, and no port is counted twice.
   */
  lemma {:induction false} PortsAreConserved(run: seq<Sys>, es: seq<Event>, n: nat)
    requires IsRun(run, es) && n < |run|
    ensures Conserved(run[n].store, run[n].creators) && Ledger(run[n].store, run[n].creators)
  {
    if n == 0 {
      RunStartsConserved(run, es);
    } else {
      PortsAreConserved(run, es, n - 1);
      RunKeepsBooks(run, es, n);
    }
  }
}
