/**
 The node-port protocol on the shared table: any number of creators and deleters,
 interleaved call by call. A creator reserves ports one at a time, then commits or
 releases; a deleter reads a stack and later runs its transaction. Calls may fail,
 and their replies may be lost although the write took place.
 */
module PortProtocol {
  import opened Types
  import opened Arithmetic
  import opened PortTable

  /** `ttl` is the port-lock lifetime in whole seconds. */
  datatype Config = Config(min: int, max: int, ttl: int)

  datatype Hold = Hold(port: int, lockedAt: int)

  datatype CreatorPc =
    | Ready                                  // between two repository calls
    | Probe(now: int, start: nat, i: nat)    // about to put the lock of the i-th port probed
    | Steal(now: int, start: nat, i: nat)    // that put failed its condition: about to reclaim
    | Unwind                                 // releasing what it reserved, oldest first
    | Ended                                  // committed, done unwinding, or stopped for good

  /** `spent` once the create transaction has been sent. */
  datatype Creator = Creator(pc: CreatorPc, held: seq<Hold>, spent: bool)

  datatype Deleter = Reading(st: Stack) | Closed

  /** Creators are named by the stack ID they generated. */
  datatype State = State(table: Table, clock: int, creators: map<string, Creator>, deleters: map<nat, Deleter>)

  datatype Event =
    | Tick(to: int)
    | SetStatus(id: string, status: string, nodeID: string, at: Time)
    | Start(c: string)
    | Reserve(c: string, start: nat)
    | Put(c: string)
    | PutFails(c: string, landed: bool)
    | Reclaim(c: string)
    | ReclaimFails(c: string, landed: bool)
    | Abandon(c: string)
    | Release(c: string)
    | ReleaseFails(c: string)
    | Finish(c: string, again: bool)
    | Commit(c: string, st: Stack)
    | CommitFails(c: string, st: Stack, landed: bool)
    | Stop(c: string)
    | Read(d: nat, id: string)
    | Remove(d: nat)
    | RemoveFails(d: nat, landed: bool)

  function Init(clock: int): State {
    State(Table(map[], map[], map[]), clock, map[], map[])
  }

  function Range(cfg: Config): int {
    cfg.max - cfg.min + 1
  }

  /** The next port of the probe, or the error path when every port has been tried. */
  function Advance(cfg: Config, now: int, start: nat, i: nat): CreatorPc {
    if i + 1 < Range(cfg) then Probe(now, start, i + 1) else Unwind
  }

  function HeldPorts(held: seq<Hold>): seq<int> {
    seq(|held|, i requires 0 <= i < |held| => held[i].port)
  }

  function AfterPut(cfg: Config, t: Table, k: Creator): (Table, Creator)
    requires k.pc.Probe? && Range(cfg) > 0
  {
    var port := PortAt(cfg.min, Range(cfg), k.pc.start, k.pc.i);
    match PutLock(t, port, k.pc.now)
    case Some(t') => (t', k.(pc := Ready, held := k.held + [Hold(port, k.pc.now)]))
    case None => (t, k.(pc := Steal(k.pc.now, k.pc.start, k.pc.i)))
  }

  function AfterReclaim(cfg: Config, t: Table, k: Creator): (Table, Creator)
    requires k.pc.Steal? && Range(cfg) > 0
  {
    var port := PortAt(cfg.min, Range(cfg), k.pc.start, k.pc.i);
    match PortTable.Reclaim(t, port, k.pc.now, k.pc.now - cfg.ttl)
    case Some(t') => (t', k.(pc := Ready, held := k.held + [Hold(port, k.pc.now)]))
    case None => (t, k.(pc := Advance(cfg, k.pc.now, k.pc.start, k.pc.i)))
  }

  function AfterCommit(t: Table, k: Creator, st: Stack): (Table, Creator) {
    match CommitTx(t, st)
    case Ok(t') => (t', Creator(Ended, [], true))
    case Err(_) => (t, k.(pc := Unwind, spent := true))
  }

  /** A committing creator passes exactly the ports it reserved, in order, under its own ID. */
  predicate MayCommit(c: string, k: Creator, st: Stack) {
    k.pc.Ready? && !k.spent && st.stackID == c && NodePorts(st.ports) == HeldPorts(k.held)
  }

  function CreatorNext(cfg: Config, t: Table, clock: int, k: Creator, e: Event): Option<(Table, Creator)> {
    match e
    case Reserve(_, start) =>
      if k.pc.Ready? && !k.spent && start < Range(cfg) then Some((t, k.(pc := Probe(clock, start, 0)))) else None
    case Put(_) =>
      if k.pc.Probe? && Range(cfg) > 0 then Some(AfterPut(cfg, t, k)) else None
    case PutFails(_, landed) =>
      if k.pc.Probe? && Range(cfg) > 0 then
        Some((if landed then AfterPut(cfg, t, k).0 else t, k.(pc := Unwind)))
      else None
    case Reclaim(_) =>
      if k.pc.Steal? && Range(cfg) > 0 then Some(AfterReclaim(cfg, t, k)) else None
    case ReclaimFails(_, landed) =>
      if k.pc.Steal? && Range(cfg) > 0 then
        Some((if landed then AfterReclaim(cfg, t, k).0 else t, k.(pc := Advance(cfg, k.pc.now, k.pc.start, k.pc.i))))
      else None
    case Abandon(_) =>
      if k.pc.Ready? then Some((t, k.(pc := Unwind))) else None
    case Release(_) =>
      if k.pc.Unwind? && k.held != [] then Some((ReleaseLock(t, k.held[0].port), k.(held := k.held[1..]))) else None
    case ReleaseFails(_) =>
      if k.pc.Unwind? && k.held != [] then Some((t, k.(held := k.held[1..]))) else None
    case Finish(_, again) =>
      if k.pc.Unwind? && k.held == [] then Some((t, k.(pc := if again && !k.spent then Ready else Ended))) else None
    case Commit(c, st) =>
      if MayCommit(c, k, st) then Some(AfterCommit(t, k, st)) else None
    case CommitFails(c, st, landed) =>
      if MayCommit(c, k, st) then
        Some((if landed then AfterCommit(t, k, st).0 else t, k.(pc := Unwind, spent := true)))
      else None
    case Stop(_) =>
      Some((t, k.(pc := Ended, held := [])))
    case _ => None
  }

  function AfterRemove(t: Table, st: Stack): Table {
    match DeleteTx(t, st)
    case Some(t') => t'
    case None => t
  }

  /** One step of the whole system, or `None` when the event cannot happen in `s`. */
  function Next(cfg: Config, s: State, e: Event): Option<State> {
    match e
    case Tick(to) => if s.clock <= to then Some(s.(clock := to)) else None
    case SetStatus(id, status, nodeID, at) =>
      (match PortTable.SetStatus(s.table, id, status, nodeID, at)
       case Some(t') => Some(s.(table := t'))
       case None => Some(s))
    case Start(c) =>
      if c == "" || c in s.creators then None
      else Some(s.(creators := s.creators[c := Creator(Ready, [], false)]))
    case Read(d, id) =>
      if d in s.deleters then None
      else Some(s.(deleters := s.deleters[d := if id in s.table.stacks then Reading(s.table.stacks[id]) else Closed]))
    case Remove(d) =>
      if d in s.deleters && s.deleters[d].Reading? then
        Some(s.(table := AfterRemove(s.table, s.deleters[d].st), deleters := s.deleters[d := Closed]))
      else None
    case RemoveFails(d, landed) =>
      if d in s.deleters && s.deleters[d].Reading? then
        Some(s.(table := if landed then AfterRemove(s.table, s.deleters[d].st) else s.table, deleters := s.deleters[d := Closed]))
      else None
    case _ =>
      if e.c in s.creators then
        (match CreatorNext(cfg, s.table, s.clock, s.creators[e.c], e)
         case Some((t', k')) => Some(s.(table := t', creators := s.creators[e.c := k']))
         case None => None)
      else None
  }

  function Run(cfg: Config, s: State, es: seq<Event>): Option<State>
    decreases |es|
  {
    if es == [] then Some(s)
    else match Next(cfg, s, es[0])
      case Some(s') => Run(cfg, s', es[1..])
      case None => None
  }

  // ---------- Ownership ----------

  /** Owned ports and live stacks name each other. */
  ghost predicate Ownership(t: Table) {
    && (forall p :: p in t.ports && !t.ports[p].Tentative() ==>
          t.ports[p].owner.value in t.stacks && p in PortSet(t.stacks[t.ports[p].owner.value]))
    && (forall id, p :: id in t.stacks && p in PortSet(t.stacks[id]) ==>
          p in t.ports && t.ports[p].owner == Some(id))
  }

  ghost predicate WellKeyed(t: Table) {
    forall id :: id in t.stacks ==> id != "" && t.stacks[id].stackID == id
  }

  /** Every live stack came from a creator that is spent. */
  ghost predicate Spent(s: State) {
    forall id :: id in s.table.stacks ==> id in s.creators && s.creators[id].spent
  }

  /** A copy read by a deleter still lists the ports of its stack, and its ID will not be used again. */
  ghost predicate Snapshots(s: State) {
    forall d :: d in s.deleters && s.deleters[d].Reading? ==>
      var st := s.deleters[d].st;
      && st.stackID in s.creators && s.creators[st.stackID].spent
      && (st.stackID in s.table.stacks ==> PortSet(s.table.stacks[st.stackID]) == PortSet(st))
  }

  ghost predicate Safe(s: State) {
    && Ownership(s.table)
    && WellKeyed(s.table)
    && "" !in s.creators
    && Spent(s)
    && Snapshots(s)
  }

  lemma PortSetOfPorts(st: Stack)
    ensures forall p :: p in PortSet(st) <==> p in NodePorts(st.ports)
  {
    forall p ensures p in PortSet(st) <==> p in NodePorts(st.ports) {
      if p in PortSet(st) { var i :| 0 <= i < |st.ports| && st.ports[i].nodePort == p; assert NodePorts(st.ports)[i] == p; }
      if p in NodePorts(st.ports) { var i :| 0 <= i < |st.ports| && NodePorts(st.ports)[i] == p; }
    }
  }

  /** The locking calls: owned items and stacks stay as they were. */
  ghost predicate OnlyLocks(t: Table, t': Table) {
    && t'.stacks == t.stacks
    && forall p :: (p in t.ports && !t.ports[p].Tentative()) || (p in t'.ports && !t'.ports[p].Tentative()) ==>
         p in t.ports && p in t'.ports && t'.ports[p].owner == t.ports[p].owner
  }

  lemma LockKeepsOwnership(t: Table, t': Table)
    requires Ownership(t) && WellKeyed(t) && OnlyLocks(t, t')
    ensures Ownership(t') && WellKeyed(t')
  {
  }

  lemma CommitKeepsOwnership(t: Table, st: Stack, t': Table)
    requires Ownership(t) && WellKeyed(t) && st.stackID != "" && CommitTx(t, st) == Ok(t')
    ensures Ownership(t') && WellKeyed(t')
    ensures t'.stacks == t.stacks[st.stackID := st]
  {
    forall id, p | id in t'.stacks && p in PortSet(t'.stacks[id])
      ensures p in t'.ports && t'.ports[p].owner == Some(id)
    {
      if id == st.stackID {
        assert Lockable(t, p);
      } else {
        assert t.ports[p].owner == Some(id);
      }
    }
  }

  lemma DeleteKeepsOwnership(t: Table, st: Stack, t': Table)
    requires Ownership(t) && WellKeyed(t) && DeleteTx(t, st) == Some(t')
    requires st.stackID in t.stacks ==> PortSet(t.stacks[st.stackID]) == PortSet(st)
    ensures Ownership(t') && WellKeyed(t')
  {
    forall id, p | id in t'.stacks && p in PortSet(t'.stacks[id])
      ensures p in t'.ports && t'.ports[p].owner == Some(id)
    {
      assert t.ports[p].owner == Some(id);
    }
  }

  /** Whatever is not a commit that takes effect only locks and unlocks. */
  lemma CreatorOnlyLocks(cfg: Config, t: Table, clock: int, k: Creator, e: Event, t': Table, k': Creator)
    requires CreatorNext(cfg, t, clock, k, e) == Some((t', k'))
    requires (e.Commit? || e.CommitFails?) ==> CommitTx(t, e.st).Err?
    ensures OnlyLocks(t, t') && (k.spent ==> k'.spent)
  {
  }

  lemma CreatorCommits(cfg: Config, t: Table, clock: int, k: Creator, e: Event, t': Table, k': Creator)
    requires CreatorNext(cfg, t, clock, k, e) == Some((t', k'))
    requires e.Commit? || e.CommitFails?
    ensures !k.spent && k'.spent && e.st.stackID == e.c
    ensures t' == t || CommitTx(t, e.st) == Ok(t')
  {
  }

  lemma CreatorStepIsSafe(cfg: Config, s: State, e: Event, s': State)
    requires Safe(s) && Next(cfg, s, e) == Some(s')
    requires IsCreatorEvent(e)
    ensures Safe(s')
  {
    var k, k' := s.creators[e.c], s'.creators[e.c];
    if (e.Commit? || e.CommitFails?) && CommitTx(s.table, e.st).Ok? {
      CreatorCommits(cfg, s.table, s.clock, k, e, s'.table, k');
      CommitKeepsOwnership(s.table, e.st, CommitTx(s.table, e.st).value);
    } else {
      CreatorOnlyLocks(cfg, s.table, s.clock, k, e, s'.table, k');
      LockKeepsOwnership(s.table, s'.table);
    }
  }

  lemma DeleterStepIsSafe(cfg: Config, s: State, e: Event, s': State)
    requires Safe(s) && Next(cfg, s, e) == Some(s')
    requires e.Read? || e.Remove? || e.RemoveFails?
    ensures Safe(s')
  {
    if !e.Read? && DeleteTx(s.table, s.deleters[e.d].st).Some? {
      DeleteKeepsOwnership(s.table, s.deleters[e.d].st, DeleteTx(s.table, s.deleters[e.d].st).value);
    }
  }

  lemma StepIsSafe(cfg: Config, s: State, e: Event, s': State)
    requires Safe(s) && Next(cfg, s, e) == Some(s')
    ensures Safe(s')
  {
    match e
    case Tick(_) =>
    case SetStatus(id, _, _, _) =>
      if id in s.table.stacks {
        assert PortSet(s'.table.stacks[id]) == PortSet(s.table.stacks[id]);
        assert forall i :: i in s.table.stacks ==> PortSet(s'.table.stacks[i]) == PortSet(s.table.stacks[i]);
      }
    case Start(_) =>
    case Read(_, _) => DeleterStepIsSafe(cfg, s, e, s');
    case Remove(_) => DeleterStepIsSafe(cfg, s, e, s');
    case RemoveFails(_, _) => DeleterStepIsSafe(cfg, s, e, s');
    case _ => CreatorStepIsSafe(cfg, s, e, s');
  }

  lemma {:induction false} RunIsSafe(cfg: Config, s: State, es: seq<Event>, s': State)
    requires Safe(s) && Run(cfg, s, es) == Some(s')
    ensures Safe(s')
    decreases |es|
  {
    if es == [] {
    } else {
      var s1 := Next(cfg, s, es[0]).value;
      StepIsSafe(cfg, s, es[0], s1);
      RunIsSafe(cfg, s1, es[1..], s');
    }
  }

  /** In every run, owned ports and live stacks agree, and no two live stacks share a node port. */
  lemma OwnershipInEveryRun(cfg: Config, clock: int, es: seq<Event>, s: State)
    requires Run(cfg, Init(clock), es) == Some(s)
    ensures forall p :: p in s.table.ports && !s.table.ports[p].Tentative() ==>
              s.table.ports[p].owner.value in s.table.stacks && p in PortSet(s.table.stacks[s.table.ports[p].owner.value])
    ensures forall id, p :: id in s.table.stacks && p in PortSet(s.table.stacks[id]) ==>
              p in s.table.ports && s.table.ports[p].owner == Some(id)
    ensures forall id1, id2 :: id1 in s.table.stacks && id2 in s.table.stacks && id1 != id2 ==>
              PortSet(s.table.stacks[id1]) !! PortSet(s.table.stacks[id2])
  {
    RunIsSafe(cfg, Init(clock), es, s);
    forall id1, id2 | id1 in s.table.stacks && id2 in s.table.stacks && id1 != id2
      ensures PortSet(s.table.stacks[id1]) !! PortSet(s.table.stacks[id2])
    {
      forall p | p in PortSet(s.table.stacks[id1]) ensures p !in PortSet(s.table.stacks[id2]) {
        assert s.table.ports[p].owner == Some(id1);
      }
    }
  }

  // ---------- Deletion ----------

  /** The event is a delete transaction that takes the live stack `id` away. */
  predicate Removes(s: State, e: Event, id: string) {
    && (e.Remove? || (e.RemoveFails? && e.landed))
    && e.d in s.deleters && s.deleters[e.d].Reading? && s.deleters[e.d].st.stackID == id
    && id in s.table.stacks
  }

  function Removals(cfg: Config, s: State, es: seq<Event>, id: string): nat
    decreases |es|
  {
    if es == [] || Next(cfg, s, es[0]).None? then 0
    else (if Removes(s, es[0], id) then 1 else 0) + Removals(cfg, Next(cfg, s, es[0]).value, es[1..], id)
  }

  /** A creator's calls add no stack but its own, once, and remove none. */
  lemma CreatorAddsOnlyItsStack(cfg: Config, t: Table, clock: int, k: Creator, e: Event, t': Table, k': Creator)
    requires CreatorNext(cfg, t, clock, k, e) == Some((t', k'))
    ensures k.spent ==> k'.spent && t'.stacks == t.stacks
    ensures t'.stacks == t.stacks || ((e.Commit? || e.CommitFails?) && t'.stacks == t.stacks[e.c := e.st])
  {
    if (e.Commit? || e.CommitFails?) && CommitTx(t, e.st).Ok? {
      CreatorCommits(cfg, t, clock, k, e, t', k');
    } else {
      CreatorOnlyLocks(cfg, t, clock, k, e, t', k');
    }
  }

  lemma RemovalsRemove(cfg: Config, s: State, e: Event, s': State, id: string)
    requires Next(cfg, s, e) == Some(s') && (e.Remove? || e.RemoveFails?)
    ensures s'.creators == s.creators
    ensures id in s'.table.stacks <==> id in s.table.stacks && !Removes(s, e, id)
  {
  }

  predicate IsCreatorEvent(e: Event) {
    !e.Tick? && !e.SetStatus? && !e.Start? && !e.Read? && !e.Remove? && !e.RemoveFails?
  }

  lemma OthersRemoveNothing(cfg: Config, s: State, e: Event, s': State)
    requires Next(cfg, s, e) == Some(s') && !IsCreatorEvent(e) && !e.Remove? && !e.RemoveFails?
    ensures s'.table.stacks.Keys == s.table.stacks.Keys
    ensures forall c :: c in s.creators ==> c in s'.creators && s'.creators[c] == s.creators[c]
  {
  }

  lemma StackGoesByRemovalOnly(cfg: Config, s: State, e: Event, s': State, id: string)
    requires Safe(s) && Next(cfg, s, e) == Some(s')
    requires id in s.creators && s.creators[id].spent
    ensures id in s'.creators && s'.creators[id].spent
    ensures id in s'.table.stacks <==> id in s.table.stacks && !Removes(s, e, id)
  {
    if e.Remove? || e.RemoveFails? {
      RemovalsRemove(cfg, s, e, s', id);
    } else if IsCreatorEvent(e) {
      CreatorAddsOnlyItsStack(cfg, s.table, s.clock, s.creators[e.c], e, s'.table, s'.creators[e.c]);
    } else {
      OthersRemoveNothing(cfg, s, e, s');
    }
  }

  /** However many deletes of a live stack race, exactly one of them removes it, if any does. */
  lemma {:induction false} ExactlyOneRemoval(cfg: Config, s: State, es: seq<Event>, s': State, id: string)
    requires Safe(s) && Run(cfg, s, es) == Some(s')
    requires id in s.creators && s.creators[id].spent
    ensures Removals(cfg, s, es, id) == (if id in s.table.stacks && id !in s'.table.stacks then 1 else 0)
    ensures id in s'.table.stacks ==> id in s.table.stacks
    decreases |es|
  {
    if es == [] {
    } else {
      var s1 := Next(cfg, s, es[0]).value;
      StepIsSafe(cfg, s, es[0], s1);
      StackGoesByRemovalOnly(cfg, s, es[0], s1, id);
      ExactlyOneRemoval(cfg, s1, es[1..], s', id);
    }
  }

  /** A delete that gets its reply leaves no stack behind, whether it won the race or lost it. */
  lemma {:induction false} FinishedDeleteLeavesNoStack(cfg: Config, s: State, es: seq<Event>, s': State, d: nat)
    requires Safe(s) && Run(cfg, s, es) == Some(s')
    requires d in s.deleters && s.deleters[d].Reading? && Remove(d) in es
    ensures s.deleters[d].st.stackID !in s'.table.stacks
    decreases |es|
  {
    var id := s.deleters[d].st.stackID;
    var s1 := Next(cfg, s, es[0]).value;
    StepIsSafe(cfg, s, es[0], s1);
    if es[0] == Remove(d) {
      StackGoesByRemovalOnly(cfg, s, es[0], s1, id);
      ExactlyOneRemoval(cfg, s1, es[1..], s', id);
    } else {
      assert Remove(d) in es[1..];
      if es[0] == RemoveFails(d, true) || es[0] == RemoveFails(d, false) {
        ClosedStaysClosed(cfg, s1, es[1..], s', d);
      } else {
        FinishedDeleteLeavesNoStack(cfg, s1, es[1..], s', d);
      }
    }
  }

  lemma {:induction false} ClosedStaysClosed(cfg: Config, s: State, es: seq<Event>, s': State, d: nat)
    requires Run(cfg, s, es) == Some(s') && d in s.deleters && s.deleters[d].Closed?
    ensures Remove(d) !in es
    decreases |es|
  {
    if es != [] {
      var s1 := Next(cfg, s, es[0]).value;
      ClosedStaysClosed(cfg, s1, es[1..], s', d);
      assert es == [es[0]] + es[1..];
    }
  }

  lemma DeleteTxTouches(t: Table, st: Stack, t': Table)
    requires Ownership(t) && WellKeyed(t) && DeleteTx(t, st) == Some(t') && PortSet(t.stacks[st.stackID]) == PortSet(st)
    ensures forall p :: p in t.ports && p !in t'.ports ==> t.ports[p].owner == Some(st.stackID)
    ensures forall p :: p in t'.ports ==> p in t.ports && t'.ports[p] == t.ports[p]
    ensures forall id :: id in t.stacks && id != st.stackID ==> id in t'.stacks && t'.stacks[id] == t.stacks[id]
  {
  }

  lemma RemovalIsDeleteTx(cfg: Config, s: State, e: Event, s': State)
    requires Next(cfg, s, e) == Some(s') && (e.Remove? || e.RemoveFails?)
    ensures e.d in s.deleters && s.deleters[e.d].Reading?
    ensures var st := s.deleters[e.d].st;
            if Removes(s, e, st.stackID) then DeleteTx(s.table, st) == Some(s'.table) else s'.table == s.table
  {
  }

  /**
   A delete transaction touches only ports its stack owns at that moment. So a losing one
   changes nothing, and a port the winner freed and another creator took stays taken.
   */
  lemma RemovalTouchesOnlyItsOwnPorts(cfg: Config, s: State, e: Event, s': State)
    requires Safe(s) && Next(cfg, s, e) == Some(s') && (e.Remove? || e.RemoveFails?)
    ensures e.d in s.deleters && s.deleters[e.d].Reading?
    ensures var id := s.deleters[e.d].st.stackID;
            && (!Removes(s, e, id) ==> s'.table == s.table)
            && (forall p :: p in s.table.ports && (p !in s'.table.ports || s'.table.ports[p] != s.table.ports[p]) ==>
                  s.table.ports[p].owner == Some(id))
            && s'.table.ports.Keys <= s.table.ports.Keys
            && (forall k :: k in s.table.stacks && k != id ==> k in s'.table.stacks && s'.table.stacks[k] == s.table.stacks[k])
  {
    RemovalIsDeleteTx(cfg, s, e, s');
    var st := s.deleters[e.d].st;
    if Removes(s, e, st.stackID) { DeleteTxTouches(s.table, st, s'.table); }
  }

  // ---------- Timed exclusivity ----------

  ghost predicate Held(s: State, c: string, i: int) {
    c in s.creators && 0 <= i < |s.creators[c].held|
  }

  /** A lock that still carries the time its creator locked it. */
  predicate IsLockOf(t: Table, h: Hold) {
    h.port in t.ports && t.ports[h.port].Tentative() && t.ports[h.port].lockedAt == Some(h.lockedAt)
  }

  /**
   What a creator holds is locked, until its create transaction takes effect. If the reply to
   that is lost it goes on to release, and until then its stack owns what it holds.
   */
  predicate IsBacked(t: Table, c: string, h: Hold) {
    if c in t.stacks then h.port in t.ports && t.ports[h.port].owner == Some(c) else IsLockOf(t, h)
  }

  ghost predicate Backed(s: State) {
    forall c, i :: Held(s, c, i) ==> IsBacked(s.table, c, s.creators[c].held[i])
  }

  /** No port is held twice, by two creators or by one. */
  ghost predicate Exclusive(s: State) {
    forall c1, i, c2, j ::
      Held(s, c1, i) && Held(s, c2, j) && s.creators[c1].held[i].port == s.creators[c2].held[j].port ==>
        c1 == c2 && i == j
  }

  ghost predicate InRange(cfg: Config, s: State) {
    forall c, i :: Held(s, c, i) ==> cfg.min <= s.creators[c].held[i].port <= cfg.max
  }

  /** A probe belongs to a creator that has not committed, and the time it sampled is not in the future. */
  ghost predicate Clocked(s: State) {
    forall c :: c in s.creators && (s.creators[c].pc.Probe? || s.creators[c].pc.Steal?) ==>
      !s.creators[c].spent && s.creators[c].pc.now <= s.clock
  }

  /** No running creator whose stack is not there has kept a lock longer than its lifetime. */
  ghost predicate Timely(cfg: Config, s: State) {
    forall c, i :: Held(s, c, i) && c !in s.table.stacks ==> s.clock - s.creators[c].held[i].lockedAt <= cfg.ttl
  }

  /** Timely all along. */
  ghost predicate TimelyRun(cfg: Config, s: State, es: seq<Event>)
    decreases |es|
  {
    && Timely(cfg, s)
    && (es != [] && Next(cfg, s, es[0]).Some? ==> TimelyRun(cfg, Next(cfg, s, es[0]).value, es[1..]))
  }

  /** A delete takes the stack away while its creator, which lost the reply to its commit, has ports left to release. */
  predicate TakesFromCreator(s: State, e: Event) {
    && (e.Remove? || e.RemoveFails?) && e.d in s.deleters && s.deleters[e.d].Reading?
    && var id := s.deleters[e.d].st.stackID;
       Removes(s, e, id) && id in s.creators && s.creators[id].held != []
  }

  /** No delete of the run does. */
  ghost predicate PatientRun(cfg: Config, s: State, es: seq<Event>)
    decreases |es|
  {
    es != [] ==>
      && !TakesFromCreator(s, es[0])
      && (Next(cfg, s, es[0]).Some? ==> PatientRun(cfg, Next(cfg, s, es[0]).value, es[1..]))
  }

  ghost predicate Orderly(cfg: Config, s: State) {
    Safe(s) && Backed(s) && Exclusive(s) && InRange(cfg, s) && Clocked(s)
  }

  /** A port about to be locked is held by no running creator. */
  lemma FreshLockIsUnheld(cfg: Config, s: State, c: string)
    requires Orderly(cfg, s) && Timely(cfg, s) && Range(cfg) > 0
    requires c in s.creators && (s.creators[c].pc.Probe? || s.creators[c].pc.Steal?)
    ensures var k := s.creators[c];
            var port := PortAt(cfg.min, Range(cfg), k.pc.start, k.pc.i);
            (if k.pc.Probe? then PutLock(s.table, port, k.pc.now) else PortTable.Reclaim(s.table, port, k.pc.now, k.pc.now - cfg.ttl)).Some? ==>
              forall c2, i :: Held(s, c2, i) ==> s.creators[c2].held[i].port != port
  {
    var k := s.creators[c];
    var port := PortAt(cfg.min, Range(cfg), k.pc.start, k.pc.i);
    forall c2, i | Held(s, c2, i) && s.creators[c2].held[i].port == port
      ensures port in s.table.ports && !Reclaimable(s.table, port, k.pc.now - cfg.ttl)
    {
      assert IsBacked(s.table, c2, s.creators[c2].held[i]);
    }
  }

  /** Locking an unheld port, with or without the creator learning of it, breaks no other hold. */
  lemma AcquireKeepsHolds(cfg: Config, s: State, c: string, port: int, now: int, owner: Option<string>, k': Creator, s': State)
    requires Backed(s) && Exclusive(s) && InRange(cfg, s) && c in s.creators && c !in s.table.stacks
    requires forall c2, i :: Held(s, c2, i) ==> s.creators[c2].held[i].port != port
    requires s'.table.ports == s.table.ports[port := PortItem(owner, Some(now))] && PortItem(owner, Some(now)).Tentative()
    requires s'.table.stacks == s.table.stacks && s'.creators == s.creators[c := k'] && cfg.min <= port <= cfg.max
    requires k'.held == s.creators[c].held || k'.held == s.creators[c].held + [Hold(port, now)]
    ensures Backed(s') && Exclusive(s') && InRange(cfg, s')
  {
    forall c2, i | Held(s', c2, i)
      ensures if Held(s, c2, i) then s'.creators[c2].held[i] == s.creators[c2].held[i]
              else c2 == c && i == |s.creators[c].held| && s'.creators[c2].held[i] == Hold(port, now)
      ensures IsBacked(s'.table, c2, s'.creators[c2].held[i])
    {
      if Held(s, c2, i) { assert IsBacked(s.table, c2, s.creators[c2].held[i]); }
    }
  }

  /** What is still held is as it was, and so is its port. */
  ghost predicate HoldsAsBefore(s: State, s': State) {
    forall c, i :: Held(s', c, i) ==>
      && Held(s, c, i) && s'.creators[c].held[i] == s.creators[c].held[i]
      && (IsBacked(s.table, c, s.creators[c].held[i]) ==> IsBacked(s'.table, c, s.creators[c].held[i]))
  }

  lemma SameHoldsAreKept(cfg: Config, s: State, s': State)
    requires Backed(s) && Exclusive(s) && InRange(cfg, s) && HoldsAsBefore(s, s')
    ensures Backed(s') && Exclusive(s') && InRange(cfg, s')
  {
    forall c, i | Held(s', c, i) ensures IsBacked(s'.table, c, s'.creators[c].held[i]) {
      assert IsBacked(s.table, c, s.creators[c].held[i]);
    }
  }

  /** The ports and stacks stay as they are, and no creator comes to hold more. */
  lemma QuietStepKeepsHolds(cfg: Config, s: State, s': State)
    requires Backed(s) && Exclusive(s) && InRange(cfg, s)
    requires s'.table.ports == s.table.ports && s'.table.stacks.Keys == s.table.stacks.Keys
    requires forall c, i :: Held(s', c, i) ==> Held(s, c, i) && s'.creators[c].held[i] == s.creators[c].held[i]
    ensures Backed(s') && Exclusive(s') && InRange(cfg, s')
  {
    SameHoldsAreKept(cfg, s, s');
  }

  lemma AcquireIsOrderly(cfg: Config, s: State, e: Event, s': State)
    requires Orderly(cfg, s) && Timely(cfg, s) && Next(cfg, s, e) == Some(s')
    requires e.Put? || e.PutFails? || e.Reclaim? || e.ReclaimFails?
    ensures Orderly(cfg, s')
  {
    StepIsSafe(cfg, s, e, s');
    var k := s.creators[e.c];
    var port := PortAt(cfg.min, Range(cfg), k.pc.start, k.pc.i);
    var t' := if k.pc.Probe? then PutLock(s.table, port, k.pc.now)
              else PortTable.Reclaim(s.table, port, k.pc.now, k.pc.now - cfg.ttl);
    if t'.Some? && (e.Put? || e.Reclaim? || e.landed) {
      FreshLockIsUnheld(cfg, s, e.c);
      var owner := t'.value.ports[port].owner;
      AcquireKeepsHolds(cfg, s, e.c, port, k.pc.now, owner, s'.creators[e.c], s');
    } else {
      QuietStepKeepsHolds(cfg, s, s');
    }
  }

  lemma ReleaseIsOrderly(cfg: Config, s: State, e: Event, s': State)
    requires Orderly(cfg, s) && Next(cfg, s, e) == Some(s')
    requires e.Release? || e.ReleaseFails?
    ensures Orderly(cfg, s')
  {
    StepIsSafe(cfg, s, e, s');
    var p := s.creators[e.c].held[0].port;
    assert Held(s, e.c, 0) && IsBacked(s.table, e.c, s.creators[e.c].held[0]);
    forall c, i | Held(s', c, i)
      ensures Held(s, c, if c == e.c then i + 1 else i)
      ensures s'.creators[c].held[i] == s.creators[c].held[if c == e.c then i + 1 else i]
      ensures s'.creators[c].held[i].port != p
      ensures IsBacked(s'.table, c, s'.creators[c].held[i])
    {
      assert IsBacked(s.table, c, s.creators[c].held[if c == e.c then i + 1 else i]);
    }
  }

  /** The ports a creator holds are its alone. */
  lemma HoldsOfOthers(s: State, c: string, st: Stack)
    requires Exclusive(s) && c in s.creators && MayCommit(c, s.creators[c], st)
    ensures forall c2, i :: Held(s, c2, i) && c2 != c ==> s.creators[c2].held[i].port !in PortSet(st)
    ensures forall i :: Held(s, c, i) ==> s.creators[c].held[i].port in PortSet(st)
  {
    PortSetOfPorts(st);
    forall j | 0 <= j < |NodePorts(st.ports)| ensures Held(s, c, j) && NodePorts(st.ports)[j] == s.creators[c].held[j].port {
      assert NodePorts(st.ports)[j] == HeldPorts(s.creators[c].held)[j];
    }
    forall i | Held(s, c, i) ensures s.creators[c].held[i].port in PortSet(st) {
      assert HeldPorts(s.creators[c].held)[i] == NodePorts(st.ports)[i];
    }
  }

  /** A commit that takes effect, whether its reply arrives or is lost. */
  lemma CommitIsOrderly(cfg: Config, s: State, e: Event, s': State)
    requires Orderly(cfg, s) && Next(cfg, s, e) == Some(s')
    requires e.Commit? || e.CommitFails?
    ensures Orderly(cfg, s')
  {
    StepIsSafe(cfg, s, e, s');
    if (e.Commit? || e.landed) && CommitTx(s.table, e.st).Ok? {
      HoldsOfOthers(s, e.c, e.st);
      forall c, i | Held(s', c, i)
        ensures Held(s, c, i) && s'.creators[c].held[i] == s.creators[c].held[i]
        ensures IsBacked(s'.table, c, s.creators[c].held[i])
      {
        assert IsBacked(s.table, c, s.creators[c].held[i]);
      }
      SameHoldsAreKept(cfg, s, s');
    } else {
      QuietStepKeepsHolds(cfg, s, s');
    }
  }

  lemma RemovalIsOrderly(cfg: Config, s: State, e: Event, s': State)
    requires Orderly(cfg, s) && Next(cfg, s, e) == Some(s') && (e.Remove? || e.RemoveFails?) && !TakesFromCreator(s, e)
    ensures Orderly(cfg, s')
  {
    StepIsSafe(cfg, s, e, s');
    var id := s.deleters[e.d].st.stackID;
    RemovalTouchesOnlyItsOwnPorts(cfg, s, e, s');
    if Removes(s, e, id) {
      forall c, i | Held(s', c, i) ensures Held(s, c, i) && c != id && IsBacked(s'.table, c, s.creators[c].held[i]) {
        assert IsBacked(s.table, c, s.creators[c].held[i]);
      }
      SameHoldsAreKept(cfg, s, s');
    } else {
      QuietStepKeepsHolds(cfg, s, s');
    }
  }

  lemma OwnStepIsQuiet(cfg: Config, s: State, e: Event, s': State)
    requires Clocked(s) && Next(cfg, s, e) == Some(s') && (e.Start? || e.Reserve? || e.Abandon? || e.Finish? || e.Stop?)
    ensures s'.table == s.table && Clocked(s')
    ensures forall c, i :: Held(s', c, i) ==> Held(s, c, i) && s'.creators[c].held[i] == s.creators[c].held[i]
  {
  }

  lemma OutsideStepIsQuiet(cfg: Config, s: State, e: Event, s': State)
    requires Clocked(s) && Next(cfg, s, e) == Some(s') && (e.Tick? || e.SetStatus? || e.Read?)
    ensures s'.table.ports == s.table.ports && s'.table.stacks.Keys == s.table.stacks.Keys
    ensures s'.creators == s.creators && Clocked(s')
  {
  }

  /** Steps that neither lock nor free a port. */
  lemma OtherStepIsOrderly(cfg: Config, s: State, e: Event, s': State)
    requires Orderly(cfg, s) && Next(cfg, s, e) == Some(s')
    requires e.Tick? || e.SetStatus? || e.Start? || e.Reserve? || e.Abandon? || e.Finish? || e.Stop? || e.Read?
    ensures Orderly(cfg, s')
  {
    StepIsSafe(cfg, s, e, s');
    if e.Tick? || e.SetStatus? || e.Read? { OutsideStepIsQuiet(cfg, s, e, s'); } else { OwnStepIsQuiet(cfg, s, e, s'); }
    QuietStepKeepsHolds(cfg, s, s');
  }

  lemma StepIsOrderly(cfg: Config, s: State, e: Event, s': State)
    requires Orderly(cfg, s) && Timely(cfg, s) && Next(cfg, s, e) == Some(s') && !TakesFromCreator(s, e)
    ensures Orderly(cfg, s')
  {
    if e.Put? || e.PutFails? || e.Reclaim? || e.ReclaimFails? {
      AcquireIsOrderly(cfg, s, e, s');
    } else if e.Release? || e.ReleaseFails? {
      ReleaseIsOrderly(cfg, s, e, s');
    } else if e.Commit? || e.CommitFails? {
      CommitIsOrderly(cfg, s, e, s');
    } else if e.Remove? || e.RemoveFails? {
      RemovalIsOrderly(cfg, s, e, s');
    } else {
      OtherStepIsOrderly(cfg, s, e, s');
    }
  }

  /** The create transaction of an orderly creator meets all its conditions. */
  lemma CommitMeetsItsConditions(cfg: Config, s: State, c: string, st: Stack)
    requires Orderly(cfg, s) && c in s.creators && MayCommit(c, s.creators[c], st) && st.ports != []
    ensures CommitTx(s.table, st).Ok?
  {
    var held := s.creators[c].held;
    PortSetOfPorts(st);
    assert |st.ports| == |held| by { assert |NodePorts(st.ports)| == |HeldPorts(held)|; }
    forall i | 0 <= i < |held| ensures Held(s, c, i) && st.ports[i].nodePort == held[i].port && Lockable(s.table, held[i].port) {
      assert NodePorts(st.ports)[i] == HeldPorts(held)[i];
      assert Held(s, c, i) && IsBacked(s.table, c, held[i]);
    }
  }

  lemma {:induction false} RunIsOrderly(cfg: Config, s: State, es: seq<Event>, s': State)
    requires Orderly(cfg, s) && TimelyRun(cfg, s, es) && PatientRun(cfg, s, es) && Run(cfg, s, es) == Some(s')
    ensures Orderly(cfg, s')
    decreases |es|
  {
    if es == [] {
    } else {
      var s1 := Next(cfg, s, es[0]).value;
      StepIsOrderly(cfg, s, es[0], s1);
      RunIsOrderly(cfg, s1, es[1..], s');
    }
  }

  /**
   When every creator commits, releases or stops within the lifetime of each of its locks, and
   no delete takes a stack away before its creator, having lost the reply to its commit, is done
   with its ports: running creators hold pairwise different ports, each locked or owned by the
   creator's own stack, and no create transaction fails a condition.
   */
  lemma ExclusiveInEveryTimelyRun(cfg: Config, clock: int, es: seq<Event>, s: State)
    requires TimelyRun(cfg, Init(clock), es) && PatientRun(cfg, Init(clock), es) && Run(cfg, Init(clock), es) == Some(s)
    ensures Exclusive(s) && InRange(cfg, s)
    ensures forall c, i :: Held(s, c, i) && c !in s.table.stacks ==> Lockable(s.table, s.creators[c].held[i].port)
    ensures forall c, i :: Held(s, c, i) && c in s.table.stacks ==>
              s.creators[c].held[i].port in s.table.ports && s.table.ports[s.creators[c].held[i].port].owner == Some(c)
    ensures forall c, st :: c in s.creators && MayCommit(c, s.creators[c], st) && st.ports != [] ==> CommitTx(s.table, st).Ok?
  {
    RunIsOrderly(cfg, Init(clock), es, s);
    forall c, i | Held(s, c, i) ensures IsBacked(s.table, c, s.creators[c].held[i]) {}
    forall c, st | c in s.creators && MayCommit(c, s.creators[c], st) && st.ports != []
      ensures CommitTx(s.table, st).Ok?
    {
      CommitMeetsItsConditions(cfg, s, c, st);
    }
  }

  // ---------- Without either condition exclusivity fails ----------

  lemma {:induction false} RunJoins(cfg: Config, s: State, es: seq<Event>, s1: State, fs: seq<Event>)
    requires Run(cfg, s, es) == Some(s1)
    ensures Run(cfg, s, es + fs) == Run(cfg, s1, fs)
    decreases |es|
  {
    if es == [] {
      assert es + fs == fs;
    } else {
      assert (es + fs)[1..] == es[1..] + fs;
      RunJoins(cfg, Next(cfg, s, es[0]).value, es[1..], s1, fs);
    }
  }

  lemma {:induction false} TimelyJoins(cfg: Config, s: State, es: seq<Event>, s1: State, fs: seq<Event>)
    requires Run(cfg, s, es) == Some(s1) && TimelyRun(cfg, s, es) && TimelyRun(cfg, s1, fs)
    ensures TimelyRun(cfg, s, es + fs)
    decreases |es|
  {
    if es == [] {
      assert es + fs == fs;
    } else {
      assert (es + fs)[1..] == es[1..] + fs;
      TimelyJoins(cfg, Next(cfg, s, es[0]).value, es[1..], s1, fs);
    }
  }

  /** A run from one state to another, timely at each of its states. */
  ghost predicate Leads(cfg: Config, s: State, es: seq<Event>, s': State) {
    Run(cfg, s, es) == Some(s') && TimelyRun(cfg, s, es)
  }

  lemma LeadsOn(cfg: Config, s: State, es: seq<Event>, s1: State, e: Event, s2: State)
    requires Leads(cfg, s, es, s1) && Next(cfg, s1, e) == Some(s2) && Timely(cfg, s1) && Timely(cfg, s2)
    ensures Leads(cfg, s, es + [e], s2)
  {
    assert [e][1..] == [] && Run(cfg, s2, []) == Some(s2) && TimelyRun(cfg, s2, []);
    assert Run(cfg, s1, [e]) == Some(s2) && TimelyRun(cfg, s1, [e]);
    RunJoins(cfg, s, es, s1, [e]);
    TimelyJoins(cfg, s, es, s1, [e]);
  }

  /** The offset at which a probe begins with this port. */
  lemma ProbeBeginsAt(cfg: Config, port: int) returns (start: nat)
    requires cfg.min <= port <= cfg.max
    ensures start < Range(cfg) && PortAt(cfg.min, Range(cfg), start, 0) == port
  {
    start := port - cfg.min;
  }

  /** There is always a name no creator has. */
  lemma {:induction false} LongerName(names: set<string>) returns (name: string)
    ensures name != "" && forall n :: n in names ==> |n| < |name|
  {
    if names == {} {
      name := "a";
    } else {
      var n :| n in names;
      var longer := LongerName(names - {n});
      name := if |n| < |longer| then longer else n + "a";
    }
  }

  /** The state after one call of `ReserveNodePort` that stops at the first port it probes. */
  function ProbeOnce(cfg: Config, s: State, c: string, start: nat): Option<State> {
    Run(cfg, s, [Event.Reserve(c, start), Event.Put(c), Event.Reclaim(c)])
  }

  /** A probe takes a tentative lock over exactly when that lock has outlived its lifetime. */
  lemma StaleLockIsReclaimed(cfg: Config, s: State, c: string, start: nat, lockedAt: int)
    requires c in s.creators && s.creators[c].pc.Ready? && !s.creators[c].spent && start < Range(cfg)
    requires Lockable(s.table, PortAt(cfg.min, Range(cfg), start, 0)) && s.table.ports[PortAt(cfg.min, Range(cfg), start, 0)].lockedAt == Some(lockedAt)
    ensures ProbeOnce(cfg, s, c, start).Some? && c in ProbeOnce(cfg, s, c, start).value.creators
    ensures var s' := ProbeOnce(cfg, s, c, start).value;
            var held := s.creators[c].held;
            if lockedAt + cfg.ttl < s.clock
            then s'.creators[c].held == held + [Hold(PortAt(cfg.min, Range(cfg), start, 0), s.clock)]
            else s'.table == s.table && s'.creators[c].held == held
    ensures var s' := ProbeOnce(cfg, s, c, start).value;
            s'.creators == s.creators[c := s'.creators[c]]
  {
    var es := [Event.Reserve(c, start), Event.Put(c), Event.Reclaim(c)];
    var s1 := Next(cfg, s, es[0]).value;
    var s2 := Next(cfg, s1, es[1]).value;
    var s3 := Next(cfg, s2, es[2]).value;
    assert es[1..] == [Event.Put(c), Event.Reclaim(c)] && es[1..][1..] == [Event.Reclaim(c)] && es[1..][1..][1..] == [];
    assert Run(cfg, s3, []) == Some(s3);
    assert Run(cfg, s2, es[1..][1..]) == Some(s3);
    assert Run(cfg, s1, es[1..]) == Some(s3);
    assert Run(cfg, s, es) == Some(s3);
  }

  /**
   The time limit is needed in every state: once a creator has kept a lock longer than its
   lifetime, a new creator can come to hold the same port.
   */
  lemma SlowCreatorSharesItsPort(cfg: Config, s: State)
    requires Orderly(cfg, s) && !Timely(cfg, s)
    ensures exists es, s' :: Run(cfg, s, es) == Some(s') && !Exclusive(s')
  {
    var a, i :| Held(s, a, i) && a !in s.table.stacks && s.clock - s.creators[a].held[i].lockedAt > cfg.ttl;
    var h := s.creators[a].held[i];
    assert IsBacked(s.table, a, h);
    var b := LongerName(s.creators.Keys);
    var start := ProbeBeginsAt(cfg, h.port);
    var s1 := Next(cfg, s, Event.Start(b)).value;
    StaleLockIsReclaimed(cfg, s1, b, start, h.lockedAt);
    var s2 := ProbeOnce(cfg, s1, b, start).value;
    var fs := [Event.Reserve(b, start), Event.Put(b), Event.Reclaim(b)];
    assert [Event.Start(b)][1..] == [] && Run(cfg, s1, []) == Some(s1);
    RunJoins(cfg, s, [Event.Start(b)], s1, fs);
    assert Run(cfg, s, [Event.Start(b)] + fs) == Some(s2);
    assert s2.creators[b].held == [] + [Hold(h.port, s.clock)];
    assert Held(s2, a, i) && Held(s2, b, 0) && s2.creators[a].held[i].port == s2.creators[b].held[0].port;
  }

  /** A new creator locks a free port at once, and nothing grows older meanwhile. */
  lemma NewcomerLocks(cfg: Config, s: State, b: string, port: int) returns (es: seq<Event>, s': State)
    requires cfg.min <= port <= cfg.max && port !in s.table.ports && b != "" && b !in s.creators
    ensures Run(cfg, s, es) == Some(s') && (Timely(cfg, s) && cfg.ttl >= 0 ==> TimelyRun(cfg, s, es))
    ensures s' == s.(table := s.table.(ports := s.table.ports[port := PortItem(Some(""), Some(s.clock))]),
                     creators := s.creators[b := Creator(Ready, [Hold(port, s.clock)], false)])
    ensures forall e :: e in es ==> !e.Remove? && !e.RemoveFails?
  {
    var start := ProbeBeginsAt(cfg, port);
    es := [Event.Start(b), Event.Reserve(b, start), Event.Put(b)];
    var s1 := Next(cfg, s, es[0]).value;
    var s2 := Next(cfg, s1, es[1]).value;
    s' := Next(cfg, s2, es[2]).value;
    assert [] + [Hold(port, s.clock)] == [Hold(port, s.clock)];
    assert s'.creators == s.creators[b := Creator(Ready, [Hold(port, s.clock)], false)];
    assert es[1..] == [Event.Reserve(b, start), Event.Put(b)] && es[1..][1..] == [Event.Put(b)] && es[1..][1..][1..] == [];
    assert Run(cfg, s', []) == Some(s') && Run(cfg, s2, es[1..][1..]) == Some(s') && Run(cfg, s1, es[1..]) == Some(s');
    if Timely(cfg, s) && cfg.ttl >= 0 {
      NewcomerIsTimely(cfg, s, s1, b);
      NewcomerIsTimely(cfg, s, s2, b);
      NewcomerIsTimely(cfg, s, s', b);
      assert TimelyRun(cfg, s', []) && TimelyRun(cfg, s2, es[1..][1..]) && TimelyRun(cfg, s1, es[1..]);
    }
  }

  lemma NewcomerIsTimely(cfg: Config, s: State, s': State, b: string)
    requires Timely(cfg, s) && cfg.ttl >= 0 && b in s'.creators && s'.clock == s.clock && s'.table.stacks == s.table.stacks
    requires s'.creators == s.creators[b := s'.creators[b]] && forall h :: h in s'.creators[b].held ==> h.lockedAt == s.clock
    ensures Timely(cfg, s')
  {
    forall c, i | Held(s', c, i) && c != b ensures Held(s, c, i) && s'.creators[c] == s.creators[c] {}
  }

  /** Such a delete frees the first port its creator holds. */
  lemma DeleteFreesHeldPort(cfg: Config, s: State, e: Event)
    requires Orderly(cfg, s) && TakesFromCreator(s, e)
    ensures var a := s.deleters[e.d].st.stackID;
            && Held(s, a, 0) && cfg.min <= s.creators[a].held[0].port <= cfg.max
            && Next(cfg, s, e).Some?
            && Next(cfg, s, e).value.creators == s.creators && Next(cfg, s, e).value.clock == s.clock
            && s.creators[a].held[0].port !in Next(cfg, s, e).value.table.ports
  {
    var a := s.deleters[e.d].st.stackID;
    assert Held(s, a, 0) && IsBacked(s.table, a, s.creators[a].held[0]);
    assert s.creators[a].held[0].port in PortSet(s.table.stacks[a]);
  }

  /**
   The other condition is needed in every state too: once a delete takes a stack from under a
   creator that still has ports to release, a new creator can come to hold one of them at once.
   */
  lemma EarlyDeleteSharesAPort(cfg: Config, s: State, e: Event)
    requires Orderly(cfg, s) && cfg.ttl >= 0 && TakesFromCreator(s, e)
    ensures exists es, s' :: Run(cfg, s, [e] + es) == Some(s') && !Exclusive(s')
              && (Timely(cfg, s) && Timely(cfg, Next(cfg, s, e).value) ==> TimelyRun(cfg, s, [e] + es))
  {
    var s1 := Next(cfg, s, e).value;
    var a := s.deleters[e.d].st.stackID;
    var port := s.creators[a].held[0].port;
    DeleteFreesHeldPort(cfg, s, e);
    var b := LongerName(s1.creators.Keys);
    var es, s2 := NewcomerLocks(cfg, s1, b, port);
    assert ([e] + es)[1..] == es;
    assert Run(cfg, s, [e] + es) == Some(s2);
    assert Held(s2, a, 0) && Held(s2, b, 0) && a != b;
    assert s2.creators[a].held[0].port == s2.creators[b].held[0].port;
  }

  // ---------- Both failures from an empty table ----------

  lemma {:induction false} WithoutDeletesIsPatient(cfg: Config, s: State, es: seq<Event>)
    requires forall e :: e in es ==> !e.Remove? && !e.RemoveFails?
    ensures PatientRun(cfg, s, es)
    decreases |es|
  {
    if es != [] && Next(cfg, s, es[0]).Some? {
      WithoutDeletesIsPatient(cfg, Next(cfg, s, es[0]).value, es[1..]);
    }
  }

  /** From an empty table, a creator that holds the first port. */
  lemma OneHolder(cfg: Config, clock: int) returns (es: seq<Event>, s: State)
    requires Range(cfg) > 0 && cfg.ttl >= 0
    ensures Leads(cfg, Init(clock), es, s) && Orderly(cfg, s) && Timely(cfg, s)
    ensures s == State(Table(map[], map[cfg.min := PortItem(Some(""), Some(clock))], map[]), clock,
                       map["a" := Creator(Ready, [Hold(cfg.min, clock)], false)], map[])
  {
    es, s := NewcomerLocks(cfg, Init(clock), "a", cfg.min);
    WithoutDeletesIsPatient(cfg, Init(clock), es);
    RunIsOrderly(cfg, Init(clock), es, s);
  }

  /** A creator that outlives its lock comes to share the port with the one that reclaims it. */
  lemma SlowRunSharesAPort(cfg: Config, clock: int)
    requires Range(cfg) > 0 && cfg.ttl >= 0
    ensures exists es, s :: Run(cfg, Init(clock), es) == Some(s) && !Exclusive(s)
  {
    var es, s1 := OneHolder(cfg, clock);
    var tick := Tick(clock + cfg.ttl + 1);
    var s2 := Next(cfg, s1, tick).value;
    StepIsOrderly(cfg, s1, tick, s2);
    assert Held(s2, "a", 0);
    SlowCreatorSharesItsPort(cfg, s2);
    var fs, s3 :| Run(cfg, s2, fs) == Some(s3) && !Exclusive(s3);
    assert ([tick] + fs)[1..] == fs;
    RunJoins(cfg, Init(clock), es, s1, [tick] + fs);
    assert Run(cfg, Init(clock), es + ([tick] + fs)) == Some(s3);
  }

  /** The record "a" commits with the one port it holds. */
  function StackOn(port: int): Stack {
    Stack("a", "a", "", "", None, "", [], [PortMapping(0, "", port)], "", "", 0, 0, 0, 0, 0)
  }

  /** The reply to the commit of the one holder is lost. */
  lemma CommitLosesReply(cfg: Config, clock: int, s: State) returns (e: Event, s': State)
    requires Range(cfg) > 0 && cfg.ttl >= 0 && Orderly(cfg, s) && Timely(cfg, s)
    requires s.table == Table(map[], map[cfg.min := PortItem(Some(""), Some(clock))], map[]) && s.clock == clock
    requires s.creators == map["a" := Creator(Ready, [Hold(cfg.min, clock)], false)] && s.deleters == map[]
    ensures Next(cfg, s, e) == Some(s') && !e.Remove? && !e.RemoveFails?
    ensures s'.table.stacks == map["a" := StackOn(cfg.min)] && s'.clock == clock && s'.deleters == map[]
    ensures s'.creators == map["a" := Creator(Unwind, [Hold(cfg.min, clock)], true)]
  {
    var st := StackOn(cfg.min);
    assert NodePorts(st.ports) == HeldPorts(s.creators["a"].held);
    assert PortSet(st) == {cfg.min} by { assert st.ports[0].nodePort in PortSet(st); }
    assert CommitTx(s.table, st).Ok?;
    e := CommitFails("a", st, true);
    s' := Next(cfg, s, e).value;
    assert s'.creators == map["a" := Creator(Unwind, [Hold(cfg.min, clock)], true)];
    assert s'.table.stacks == map["a" := st];
  }

  lemma HolderIsTimely(cfg: Config, s: State)
    requires cfg.ttl >= 0 && s.creators.Keys == {"a"} && s.creators["a"].held == [Hold(cfg.min, s.clock)]
    ensures Timely(cfg, s)
  {
  }

  /** A delete reads the stack whose creator is about to release its port. */
  lemma CopyIsRead(cfg: Config, s: State) returns (s': State)
    requires Orderly(cfg, s) && Timely(cfg, s)
    requires s.table.stacks == map["a" := StackOn(cfg.min)] && s.deleters == map[]
    requires s.creators == map["a" := Creator(Unwind, [Hold(cfg.min, s.clock)], true)]
    ensures Next(cfg, s, Read(0, "a")) == Some(s') && s'.creators == s.creators && s'.clock == s.clock
    ensures Orderly(cfg, s') && TakesFromCreator(s', Remove(0))
  {
    s' := s.(deleters := map[0 := Reading(StackOn(cfg.min))]);
    assert s.deleters[0 := Reading(StackOn(cfg.min))] == s'.deleters;
    StepIsOrderly(cfg, s, Read(0, "a"), s');
  }

  /** A creator whose commit took effect but whose reply was lost, and a delete about to run. */
  lemma LostReply(cfg: Config, clock: int) returns (es: seq<Event>, s: State)
    requires Range(cfg) > 0 && cfg.ttl >= 0
    ensures Leads(cfg, Init(clock), es, s) && Orderly(cfg, s) && TakesFromCreator(s, Remove(0))
    ensures Timely(cfg, s) && Timely(cfg, Next(cfg, s, Remove(0)).value)
  {
    var s1;
    es, s1 := OneHolder(cfg, clock);
    var commit, s2 := CommitLosesReply(cfg, clock, s1);
    StepIsOrderly(cfg, s1, commit, s2);
    HolderIsTimely(cfg, s2);
    LeadsOn(cfg, Init(clock), es, s1, commit, s2);
    s := CopyIsRead(cfg, s2);
    HolderIsTimely(cfg, s);
    LeadsOn(cfg, Init(clock), es + [commit], s2, Read(0, "a"), s);
    es := es + [commit] + [Read(0, "a")];
    DeleteFreesHeldPort(cfg, s, Remove(0));
    HolderIsTimely(cfg, Next(cfg, s, Remove(0)).value);
  }

  /**
   Within the time limit, at a single instant: the reply to a commit is lost, the stack is
   deleted before its creator is done, and a second creator locks the port the first still holds.
   */
  lemma LostReplySharesAPort(cfg: Config, clock: int)
    requires Range(cfg) > 0 && cfg.ttl >= 0
    ensures exists es, s :: Leads(cfg, Init(clock), es, s) && !Exclusive(s)
  {
    var es, s1 := LostReply(cfg, clock);
    EarlyDeleteSharesAPort(cfg, s1, Remove(0));
    var fs, s2 :| Run(cfg, s1, [Remove(0)] + fs) == Some(s2) && !Exclusive(s2) && TimelyRun(cfg, s1, [Remove(0)] + fs);
    RunJoins(cfg, Init(clock), es, s1, [Remove(0)] + fs);
    TimelyJoins(cfg, Init(clock), es, s1, [Remove(0)] + fs);
    assert Leads(cfg, Init(clock), es + ([Remove(0)] + fs), s2);
  }
}
