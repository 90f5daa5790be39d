/**
 The shared table against the three maps: each operation on the table does to the maps, and
 answers, what the in-memory repository does, exactly when one condition on the call holds.
 */
module Refinement {
  import opened Types
  import opened Arithmetic
  import opened PortTable
  import opened Repository
  import D = DynamoRepository

  /** The maps a table stands for: a tentative lock is a port of nobody. */
  function MemOf(t: Table): Mem {
    Mem(t.stacks, map p | p in t.ports :: if t.ports[p].owner.Some? then t.ports[p].owner.value else "", t.jobs)
  }

  /** `start` and `order` are what the implementations choose: where a probe begins, how stacks are read. */
  datatype Op =
    | Create(st: Stack)
    | Get(id: string)
    | Delete(id: string)
    | Reserve(min: int, max: int, start: nat, second: int, ttl: int)
    | Release(port: int)
    | Count
    | ListAll(order: seq<string>)
    | UpdateStatus(id: string, status: string, nodeID: string, now: Time)
    | CreateJob(job: BatchDeleteJob)
    | UpdateJob(job: BatchDeleteJob)
    | GetJob(jobID: string)

  datatype Reply =
    | Done
    | Failed(error: Error)
    | Found(st: Option<Stack>)
    | Port(port: int)
    | Number(n: nat)
    | Listed(stacks: seq<Stack>)
    | FoundJob(job: Option<BatchDeleteJob>)

  function Lookup<T>(m: map<string, T>, k: string): Option<T> {
    if k in m then Some(m[k]) else None
  }

  /** What the repository on the shared table does, run alone. */
  ghost function TableStep(t: Table, op: Op): (Table, Reply) {
    match op
    case Create(st) =>
      (match CommitTx(t, D.Stored(st))
       case Ok(t') => (t', Done)
       case Err(e) => (t, Failed(e)))
    case Get(id) => (t, Found(Lookup(t.stacks, id)))
    case Delete(id) =>
      if id in t.stacks then
        (match DeleteTx(t, t.stacks[id])
         case Some(t') => (t', Found(Some(t.stacks[id])))
         case None => (t, Found(None)))
      else (t, Found(None))
    case Reserve(min, max, start, second, ttl) =>
      if max < min || start >= max - min + 1 then (t, Failed(NoAvailableNodePort))
      else
        (match D.Scan(t, min, max - min + 1, start, 0, second, second - ttl)
         case (t', Some(port)) => (t', Port(port))
         case (t', None) => (t', Failed(NoAvailableNodePort)))
    case Release(port) => (ReleaseLock(t, port), Done)
    case Count => (t, Number(|t.ports|))
    case ListAll(order) => (t, Listed(Listing(order, t.stacks)))
    case UpdateStatus(id, status, nodeID, now) =>
      (match SetStatus(t, id, status, nodeID, now)
       case Some(t') => (t', Done)
       case None => (t, Failed(NotFound)))
    case CreateJob(job) =>
      if job.jobID in t.jobs then (t, Failed(AlreadyExists)) else (t.(jobs := t.jobs[job.jobID := job]), Done)
    case UpdateJob(job) =>
      if job.jobID in t.jobs then (t.(jobs := t.jobs[job.jobID := job]), Done) else (t, Failed(NotFound))
    case GetJob(id) => (t, FoundJob(Lookup(t.jobs, id)))
  }

  /** What the in-memory repository does. */
  ghost function MemStep(m: Mem, op: Op): (Mem, Reply) {
    match op
    case Create(st) =>
      (AfterCreate(m, st),
       if Commits(m, st) then Done else Failed(if st.stackID in m.stacks then AlreadyExists else NoAvailableNodePort))
    case Get(id) => (m, Found(Lookup(m.stacks, id)))
    case Delete(id) => (AfterDelete(m, id), Found(Lookup(m.stacks, id)))
    case Reserve(min, max, start, _, _) =>
      if max < min || start >= max - min + 1 then (m, Failed(NoAvailableNodePort))
      else
        (match Probe(m.ports, min, max - min + 1, start, 0)
         case Some(port) => (m.(ports := m.ports[port := ""]), Port(port))
         case None => (m, Failed(NoAvailableNodePort)))
    case Release(port) => (AfterRelease(m, port), Done)
    case Count => (m, Number(|m.ports|))
    case ListAll(order) => (m, Listed(Listing(order, m.stacks)))
    case UpdateStatus(id, status, nodeID, now) =>
      (AfterUpdateStatus(m, id, status, nodeID, now), if id in m.stacks then Done else Failed(NotFound))
    case CreateJob(job) =>
      if job.jobID in m.jobs then (m, Failed(AlreadyExists)) else (m.(jobs := m.jobs[job.jobID := job]), Done)
    case UpdateJob(job) =>
      if job.jobID in m.jobs then (m.(jobs := m.jobs[job.jobID := job]), Done) else (m, Failed(NotFound))
    case GetJob(id) => (m, FoundJob(Lookup(m.jobs, id)))
  }

  // ---------- When they agree ----------

  /** The probe passes a stale lock before it comes to a free port. */
  ghost predicate MeetsStaleLock(t: Table, min: int, total: int, start: nat, staleBefore: int)
    requires total > 0
  {
    exists j: nat :: j < total && StaleAt(t, min, total, start, j, staleBefore)
  }

  predicate StaleAt(t: Table, min: int, total: int, start: nat, j: nat, staleBefore: int)
    requires total > 0
  {
    && (forall i: nat :: i <= j ==> PortAt(min, total, start, i) in t.ports)
    && Reclaimable(t, PortAt(min, total, start, j), staleBefore)
  }

  /** What a caller checks before the call. */
  ghost predicate Agreeable(t: Table, op: Op) {
    match op
    case Create(st) =>
      && !D.RepeatsPort(st)
      && (st.ports == [] ==> st.stackID !in t.stacks)
      && (st.nodePublicIP == Some("") ==> !Commits(MemOf(t), st))
    case Reserve(min, max, start, second, ttl) =>
      start < max - min + 1 ==> !MeetsStaleLock(t, min, max - min + 1, start, second - ttl)
    case UpdateStatus(id, _, nodeID, _) =>
      id in t.stacks && nodeID == "" ==> t.stacks[id].nodeID == ""
    case _ => true
  }

  lemma OwnersAgree(t: Table, p: int)
    ensures Lockable(t, p) <==> p in MemOf(t).ports && MemOf(t).ports[p] == ""
  {
  }

  lemma CommitsAgree(t: Table, st: Stack)
    ensures CommitTx(t, D.Stored(st)).Ok? <==> Commits(MemOf(t), st) && !D.RepeatsPort(st)
  {
    forall p ensures Lockable(t, p) <==> p in MemOf(t).ports && MemOf(t).ports[p] == "" {
      OwnersAgree(t, p);
    }
    assert PortSet(D.Stored(st)) == PortSet(st);
    if forall p :: p in PortSet(st) ==> Lockable(t, p) {
      forall i | 0 <= i < |st.ports| ensures Lockable(t, st.ports[i].nodePort) {
        assert st.ports[i].nodePort in PortSet(st);
      }
    }
  }

  lemma CommittedAgrees(t: Table, st: Stack)
    requires CommitTx(t, st).Ok? && Commits(MemOf(t), st)
    ensures MemOf(CommitTx(t, st).value) == AfterCreate(MemOf(t), st)
  {
    assert MemOf(CommitTx(t, st).value).ports == AfterCreate(MemOf(t), st).ports;
  }

  lemma CreateAgrees(t: Table, st: Stack)
    ensures CommitTx(t, D.Stored(st)).Ok? <==> Commits(MemOf(t), st) && !D.RepeatsPort(st)
    ensures CommitTx(t, D.Stored(st)).Ok? ==> MemOf(CommitTx(t, D.Stored(st)).value) == AfterCreate(MemOf(t), D.Stored(st))
  {
    CommitsAgree(t, st);
    if CommitTx(t, D.Stored(st)).Ok? { CommittedAgrees(t, D.Stored(st)); }
  }

  /** The scan stops where the probe does unless a stale lock stops it earlier. */
  lemma {:induction false} ScanAgrees(t: Table, min: int, total: int, start: nat, i: nat, second: int, staleBefore: int)
    requires total > 0 && i <= total
    requires forall k: nat :: k < i ==> PortAt(min, total, start, k) in t.ports
    ensures var (t', got) := D.Scan(t, min, total, start, i, second, staleBefore);
            var probed := Probe(MemOf(t).ports, min, total, start, i);
            && ((exists j: nat :: i <= j < total && StaleAt(t, min, total, start, j, staleBefore)) ==> got.Some? && got != probed)
            && (!(exists j: nat :: i <= j < total && StaleAt(t, min, total, start, j, staleBefore)) ==>
                  got == probed && MemOf(t') == if got.Some? then MemOf(t).(ports := MemOf(t).ports[got.value := ""]) else MemOf(t))
    decreases total - i
  {
    if i < total {
      var port := PortAt(min, total, start, i);
      if port !in t.ports {
        assert forall j: nat :: i <= j < total ==> !StaleAt(t, min, total, start, j, staleBefore);
      } else if Reclaimable(t, port, staleBefore) {
        assert StaleAt(t, min, total, start, i, staleBefore);
      } else {
        ScanAgrees(t, min, total, start, i + 1, second, staleBefore);
      }
    }
  }

  lemma DeleteAgrees(t: Table, id: string)
    requires D.WellFormed(t) && id in t.stacks
    ensures DeleteTx(t, t.stacks[id]).Some? && MemOf(DeleteTx(t, t.stacks[id]).value) == AfterDelete(MemOf(t), id)
  {
    assert MemOf(DeleteTx(t, t.stacks[id]).value).ports == AfterDelete(MemOf(t), id).ports;
  }

  lemma UpdateAgrees(t: Table, id: string, status: string, nodeID: string, now: Time)
    requires id in t.stacks
    ensures (nodeID == "" ==> t.stacks[id].nodeID == "") <==>
            MemOf(SetStatus(t, id, status, nodeID, now).value) == AfterUpdateStatus(MemOf(t), id, status, nodeID, now)
  {
    var here, there := SetStatus(t, id, status, nodeID, now).value.stacks, AfterUpdateStatus(MemOf(t), id, status, nodeID, now).stacks;
    if nodeID == "" && t.stacks[id].nodeID != "" {
      assert here[id].nodeID != there[id].nodeID;
    } else {
      assert here == there;
    }
  }

  lemma OthersAgree(t: Table, op: Op)
    requires D.WellFormed(t) && !op.Create? && !op.Reserve? && !op.UpdateStatus?
    ensures MemStep(MemOf(t), op) == (MemOf(TableStep(t, op).0), TableStep(t, op).1)
  {
    match op
    case Delete(id) => if id in t.stacks { DeleteAgrees(t, id); }
    case Release(port) => assert MemOf(ReleaseLock(t, port)).ports == AfterRelease(MemOf(t), port).ports;
    case Count => assert MemOf(t).ports.Keys == t.ports.Keys;
    case _ =>
  }

  /** One operation agrees in state and reply exactly when its condition holds. */
  lemma StepAgrees(t: Table, op: Op)
    requires D.WellFormed(t)
    ensures MemStep(MemOf(t), op) == (MemOf(TableStep(t, op).0), TableStep(t, op).1) <==> Agreeable(t, op)
  {
    match op
    case Create(st) => CreateStepAgrees(t, st);
    case Reserve(min, max, start, second, ttl) =>
      if start < max - min + 1 { ScanAgrees(t, min, max - min + 1, start, 0, second, second - ttl); }
    case UpdateStatus(id, status, nodeID, now) =>
      if id in t.stacks { UpdateAgrees(t, id, status, nodeID, now); }
    case _ => OthersAgree(t, op);
  }

  lemma CreateStepAgrees(t: Table, st: Stack)
    ensures MemStep(MemOf(t), Create(st)) == (MemOf(TableStep(t, Create(st)).0), TableStep(t, Create(st)).1) <==> Agreeable(t, Create(st))
  {
    CreateAgrees(t, st);
    if Commits(MemOf(t), st) && !D.RepeatsPort(st) && st.nodePublicIP == Some("") {
      assert AfterCreate(MemOf(t), st).stacks[st.stackID] != AfterCreate(MemOf(t), D.Stored(st)).stacks[st.stackID];
    }
  }

  lemma StepKeepsForm(t: Table, op: Op)
    requires D.WellFormed(t)
    ensures D.WellFormed(TableStep(t, op).0)
  {
    match op
    case Create(st) => if CommitTx(t, D.Stored(st)).Ok? { D.KeepsForm(t, D.Stored(st)); }
    case Reserve(min, max, start, second, ttl) =>
      if start < max - min + 1 { ScanKeepsStacks(t, min, max - min + 1, start, 0, second, second - ttl); }
    case _ =>
  }

  lemma {:induction false} ScanKeepsStacks(t: Table, min: int, total: int, start: nat, i: nat, second: int, staleBefore: int)
    requires total > 0 && i <= total
    ensures D.Scan(t, min, total, start, i, second, staleBefore).0.stacks == t.stacks
    decreases total - i
  {
    if i < total { ScanKeepsStacks(t, min, total, start, i + 1, second, staleBefore); }
  }

  // ---------- Runs ----------

  ghost function TableRun(t: Table, ops: seq<Op>): (Table, seq<Reply>)
    decreases |ops|
  {
    if ops == [] then (t, [])
    else
      var (t1, reply) := TableStep(t, ops[0]);
      var (t2, replies) := TableRun(t1, ops[1..]);
      (t2, [reply] + replies)
  }

  ghost function MemRun(m: Mem, ops: seq<Op>): (Mem, seq<Reply>)
    decreases |ops|
  {
    if ops == [] then (m, [])
    else
      var (m1, reply) := MemStep(m, ops[0]);
      var (m2, replies) := MemRun(m1, ops[1..]);
      (m2, [reply] + replies)
  }

  /** Every call of the run meets its condition. */
  ghost predicate AllAgreeable(t: Table, ops: seq<Op>)
    decreases |ops|
  {
    ops != [] ==> Agreeable(t, ops[0]) && AllAgreeable(TableStep(t, ops[0]).0, ops[1..])
  }

  /** The shared table simulates the three maps: over any run of such calls every reply is the same. */
  lemma {:induction false} RunsAgree(t: Table, ops: seq<Op>)
    requires D.WellFormed(t) && AllAgreeable(t, ops)
    ensures MemRun(MemOf(t), ops) == (MemOf(TableRun(t, ops).0), TableRun(t, ops).1)
    decreases |ops|
  {
    if ops != [] {
      StepAgrees(t, ops[0]);
      StepKeepsForm(t, ops[0]);
      RunsAgree(TableStep(t, ops[0]).0, ops[1..]);
    }
  }
}
