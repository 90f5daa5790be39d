/** The repository on the shared table, and the typed table its rows stand for. */
module DynamoRepository {
  import opened Types
  import opened Arithmetic
  import opened Decimal
  import opened Items
  import opened Keys
  import opened DynamoTable
  import opened PortTable
  import Repository

  // ---------- What the rows stand for ----------

  datatype Entity = AStack(st: Stack) | APort(item: PortItem) | AJob(job: BatchDeleteJob)

  function RowNumber(item: Item, key: Name): Option<int> {
    if key in item && item[key].N? then Number(item[key].digits) else None
  }

  /** The row of a port, read as a lock or an owned port. */
  predicate IsPortRow(item: Item, p: PortItem) {
    && Name.IndexPK !in item
    && (if p.owner.Some? then Has(item, Name.StackID, S(p.owner.value)) else Name.StackID !in item)
    && (if p.lockedAt.Some? then RowNumber(item, Name.LockedAt) == p.lockedAt else Name.LockedAt !in item)
  }

  /** The item of an entity. Only stacks carry the key of the index over all stacks. */
  predicate Encodes(item: Item, e: Entity, clock: TimeText) {
    match e
    case AStack(st) => Has(item, Name.IndexPK, S(ALL_STACKS)) && StackFromItem(item, clock) == Some(st)
    case APort(p) => IsPortRow(item, p)
    case AJob(job) => Name.IndexPK !in item && JobFromItem(item, clock) == Some(job)
  }

  function Lookup(t: Table, ref: Ref): Option<Entity> {
    match ref
    case StackRef(id) => if id in t.stacks then Some(AStack(t.stacks[id])) else None
    case PortRef(p) => if p in t.ports then Some(APort(t.ports[p])) else None
    case JobRef(id) => if id in t.jobs then Some(AJob(t.jobs[id])) else None
  }

  /** The rows are exactly those of the stacks, ports and jobs of `t`. */
  ghost predicate Represents(rows: Rows, t: Table, clock: TimeText) {
    && (forall ref :: KeyOf(ref) in rows <==> Lookup(t, ref).Some?)
    && (forall ref :: KeyOf(ref) in rows ==> Encodes(rows[KeyOf(ref)], Lookup(t, ref).value, clock))
    && (forall key :: key in rows ==> exists ref :: KeyOf(ref) == key)
  }

  /** What `Create` lets in: each stack under its own ID, each of its ports listed once. */
  ghost predicate WellFormed(t: Table) {
    forall id :: id in t.stacks ==> t.stacks[id].stackID == id && Distinct(NodePorts(t.stacks[id].ports))
  }

  lemma SetRowAt(rows: Rows, t: Table, t': Table, clock: TimeText, ref: Ref, item: Item, e: Entity, r: Ref)
    requires Represents(rows, t, clock) && Encodes(item, e, clock)
    requires Lookup(t', r) == if r == ref then Some(e) else Lookup(t, r)
    ensures var rows' := rows[KeyOf(ref) := item];
            && (KeyOf(r) in rows' <==> Lookup(t', r).Some?)
            && (KeyOf(r) in rows' ==> Encodes(rows'[KeyOf(r)], Lookup(t', r).value, clock))
  {
    KeysAreInjective();
  }

  lemma SetRow(rows: Rows, t: Table, t': Table, clock: TimeText, ref: Ref, item: Item, e: Entity)
    requires Represents(rows, t, clock) && Encodes(item, e, clock)
    requires forall r :: Lookup(t', r) == if r == ref then Some(e) else Lookup(t, r)
    ensures Represents(rows[KeyOf(ref) := item], t', clock)
  {
    var rows' := rows[KeyOf(ref) := item];
    forall r
      ensures KeyOf(r) in rows' <==> Lookup(t', r).Some?
      ensures KeyOf(r) in rows' ==> Encodes(rows'[KeyOf(r)], Lookup(t', r).value, clock)
    {
      SetRowAt(rows, t, t', clock, ref, item, e, r);
    }
  }

  lemma DropRow(rows: Rows, t: Table, t': Table, clock: TimeText, ref: Ref)
    requires Represents(rows, t, clock)
    requires forall r :: Lookup(t', r) == if r == ref then None else Lookup(t, r)
    ensures Represents(rows - {KeyOf(ref)}, t', clock)
  {
    KeysAreInjective();
  }

  // ---------- Conditions ----------

  lemma ConditionsMean(rows: Rows, t: Table, clock: TimeText, id: string, p: int, before: int)
    requires Represents(rows, t, clock)
    ensures Holds(Absent, Row(rows, KeyOf(StackRef(id)))) <==> id !in t.stacks
    ensures Holds(Absent, Row(rows, KeyOf(PortRef(p)))) <==> p !in t.ports
    ensures Holds(Unowned, Row(rows, KeyOf(PortRef(p)))) <==> (p in t.ports ==> t.ports[p].Tentative())
    ensures Holds(PresentUnowned, Row(rows, KeyOf(PortRef(p)))) <==> Lockable(t, p)
    ensures Holds(UnownedSince(before), Row(rows, KeyOf(PortRef(p)))) <==> Reclaimable(t, p, before)
  {
    var row := Row(rows, KeyOf(PortRef(p)));
    assert row.Some? <==> Lookup(t, PortRef(p)).Some?;
    assert row.Some? ==> IsPortRow(row.value, t.ports[p]);
    assert KeyOf(StackRef(id)) in rows <==> Lookup(t, StackRef(id)).Some?;
  }

  // ---------- The create transaction ----------

  function TakePort(st: Stack, i: nat, now: string): Write
    requires i < |st.ports|
  {
    Update(KeyOf(PortRef(st.ports[i].nodePort)), map[Name.StackID := S(st.stackID), Name.UpdatedAt := S(now)], PresentUnowned)
  }

  function CreateWrites(st: Stack, item: Item, n: nat, now: string): seq<Write>
    requires n <= |st.ports|
  {
    [Put(KeyOf(StackRef(st.stackID)), item, Absent)] + seq(n, i requires 0 <= i < n => TakePort(st, i, now))
  }

  /** The table once the stack is in and its first `n` ports are taken. */
  function Taken(t: Table, st: Stack, n: nat): Table
    requires n <= |st.ports|
  {
    t.(stacks := t.stacks[st.stackID := st],
       ports := map p | p in t.ports :: if p in FirstPorts(st, n) then t.ports[p].(owner := Some(st.stackID)) else t.ports[p])
  }

  predicate RepeatsPort(st: Stack) {
    exists i, j :: 0 <= i < j < |st.ports| && st.ports[i].nodePort == st.ports[j].nodePort
  }

  lemma CreateKeys(st: Stack, item: Item, now: string)
    ensures var ws := CreateWrites(st, item, |st.ports|, now);
            |ws| == |st.ports| + 1 && forall i, j :: 0 <= i < j < |ws| ==>
              (ws[i].key == ws[j].key <==> i > 0 && st.ports[i - 1].nodePort == st.ports[j - 1].nodePort)
  {
    var ws := CreateWrites(st, item, |st.ports|, now);
    forall i, j | 0 <= i < j < |ws|
      ensures ws[i].key == ws[j].key <==> i > 0 && st.ports[i - 1].nodePort == st.ports[j - 1].nodePort
    {
      var a := if i == 0 then StackRef(st.stackID) else PortRef(st.ports[i - 1].nodePort);
      var b := PortRef(st.ports[j - 1].nodePort);
      assert ws[i].key == KeyOf(a) && ws[j].key == KeyOf(b);
      if KeyOf(a) == KeyOf(b) { KeyIsInjective(a, b); }
    }
  }

  lemma CreateRepeats(st: Stack, item: Item, now: string)
    ensures Repeats(CreateWrites(st, item, |st.ports|, now)) <==> RepeatsPort(st)
  {
    var ws := CreateWrites(st, item, |st.ports|, now);
    CreateKeys(st, item, now);
    if RepeatsPort(st) {
      var i, j :| 0 <= i < j < |st.ports| && st.ports[i].nodePort == st.ports[j].nodePort;
      assert ws[i + 1].key == ws[j + 1].key;
    }
    if Repeats(ws) {
      var i, j :| 0 <= i < j < |ws| && ws[i].key == ws[j].key;
      assert st.ports[i - 1].nodePort == st.ports[j - 1].nodePort;
    }
  }

  lemma PortCondition(rows: Rows, t: Table, clock: TimeText, st: Stack, i: nat, now: string)
    requires Represents(rows, t, clock) && i < |st.ports|
    ensures var w := TakePort(st, i, now); Holds(w.cond, Row(rows, w.key)) <==> Lockable(t, st.ports[i].nodePort)
  {
    ConditionsMean(rows, t, clock, "", st.ports[i].nodePort, 0);
  }

  /** The first condition fails when the stack exists, a later one when its port is not locked. */
  lemma CreateConditions(rows: Rows, t: Table, clock: TimeText, st: Stack, item: Item, now: string)
    requires Represents(rows, t, clock)
    ensures var failed := FailedConditions(rows, CreateWrites(st, item, |st.ports|, now));
            && |failed| == |st.ports| + 1
            && (failed[0] <==> st.stackID in t.stacks)
            && forall i :: 0 <= i < |st.ports| ==> (failed[i + 1] <==> !Lockable(t, st.ports[i].nodePort))
  {
    var ws := CreateWrites(st, item, |st.ports|, now);
    assert Holds(Absent, Row(rows, KeyOf(StackRef(st.stackID)))) <==> st.stackID !in t.stacks by {
      ConditionsMean(rows, t, clock, st.stackID, 0, 0);
    }
    forall i | 0 <= i < |st.ports| ensures FailedConditions(rows, ws)[i + 1] <==> !Lockable(t, st.ports[i].nodePort) {
      PortCondition(rows, t, clock, st, i, now);
      assert ws[i + 1] == TakePort(st, i, now);
    }
  }

  lemma PortRowOf(rows: Rows, t: Table, clock: TimeText, p: int)
    requires Represents(rows, t, clock)
    ensures KeyOf(PortRef(p)) in rows <==> p in t.ports
    ensures p in t.ports ==> IsPortRow(rows[KeyOf(PortRef(p))], t.ports[p])
  {
    assert KeyOf(PortRef(p)) in rows <==> Lookup(t, PortRef(p)).Some?;
  }

  lemma TakenItem(item: Item, p: PortItem, st: Stack, n: nat, now: string)
    requires n < |st.ports| && IsPortRow(item, p)
    ensures IsPortRow(item + TakePort(st, n, now).sets, p.(owner := Some(st.stackID)))
  {
  }

  lemma TakenRow(rows: Rows, t: Table, clock: TimeText, st: Stack, n: nat, now: string)
    requires n < |st.ports| && Lockable(t, st.ports[n].nodePort) && Represents(rows, Taken(t, st, n), clock)
    ensures var key := KeyOf(PortRef(st.ports[n].nodePort));
            key in rows && IsPortRow(rows[key] + TakePort(st, n, now).sets, Taken(t, st, n + 1).ports[st.ports[n].nodePort])
  {
    var p := st.ports[n].nodePort;
    PortRowOf(rows, Taken(t, st, n), clock, p);
    TakenItem(rows[KeyOf(PortRef(p))], Taken(t, st, n).ports[p], st, n, now);
    OneMorePort(st, n);
  }

  /** Taking one more port updates one row. */
  lemma TakeOneRow(rows: Rows, t: Table, clock: TimeText, st: Stack, n: nat, now: string)
    requires n < |st.ports| && Lockable(t, st.ports[n].nodePort) && Represents(rows, Taken(t, st, n), clock)
    ensures Represents(Applied(rows, TakePort(st, n, now)), Taken(t, st, n + 1), clock)
  {
    var p := st.ports[n].nodePort;
    TakenRow(rows, t, clock, st, n, now);
    TakenOneMore(t, st, n);
    SetRow(rows, Taken(t, st, n), Taken(t, st, n + 1), clock, PortRef(p),
           rows[KeyOf(PortRef(p))] + TakePort(st, n, now).sets, APort(Taken(t, st, n + 1).ports[p]));
  }

  lemma TakenOneMore(t: Table, st: Stack, n: nat)
    requires n < |st.ports| && Lockable(t, st.ports[n].nodePort)
    ensures var p := st.ports[n].nodePort;
            forall r :: Lookup(Taken(t, st, n + 1), r) ==
                          if r == PortRef(p) then Some(APort(Taken(t, st, n + 1).ports[p])) else Lookup(Taken(t, st, n), r)
  {
    OneMorePort(st, n);
    var p, after, before := st.ports[n].nodePort, Taken(t, st, n + 1), Taken(t, st, n);
    forall r ensures Lookup(after, r) == if r == PortRef(p) then Some(APort(after.ports[p])) else Lookup(before, r) {
      if r.PortRef? && r.port != p {
        assert r.port in FirstPorts(st, n + 1) <==> r.port in FirstPorts(st, n);
      }
    }
  }

  lemma CreateWritesOneMore(rows: Rows, st: Stack, item: Item, n: nat, now: string)
    requires n < |st.ports|
    ensures AppliedAll(rows, CreateWrites(st, item, n + 1, now)) ==
              Applied(AppliedAll(rows, CreateWrites(st, item, n, now)), TakePort(st, n, now))
  {
    var ws := CreateWrites(st, item, n + 1, now);
    assert ws[..|ws| - 1] == CreateWrites(st, item, n, now) && ws[|ws| - 1] == TakePort(st, n, now);
  }

  lemma FirstPut(rows: Rows, st: Stack, item: Item, now: string)
    ensures AppliedAll(rows, CreateWrites(st, item, 0, now)) == rows[KeyOf(StackRef(st.stackID)) := item]
  {
    var ws := CreateWrites(st, item, 0, now);
    assert ws[..0] == [] && AppliedAll(rows, []) == rows;
  }

  lemma TakenNone(t: Table, st: Stack)
    ensures forall r :: Lookup(Taken(t, st, 0), r) == if r == StackRef(st.stackID) then Some(AStack(st)) else Lookup(t, r)
  {
  }

  lemma CreateStarts(rows: Rows, t: Table, clock: TimeText, st: Stack, item: Item, now: string)
    requires Represents(rows, t, clock) && Encodes(item, AStack(st), clock)
    ensures Represents(AppliedAll(rows, CreateWrites(st, item, 0, now)), Taken(t, st, 0), clock)
  {
    FirstPut(rows, st, item, now);
    TakenNone(t, st);
    SetRow(rows, t, Taken(t, st, 0), clock, StackRef(st.stackID), item, AStack(st));
  }

  lemma CreateAppliesNext(rows: Rows, t: Table, clock: TimeText, st: Stack, item: Item, n: nat, now: string)
    requires n < |st.ports| && Lockable(t, st.ports[n].nodePort)
    requires Represents(AppliedAll(rows, CreateWrites(st, item, n, now)), Taken(t, st, n), clock)
    ensures Represents(AppliedAll(rows, CreateWrites(st, item, n + 1, now)), Taken(t, st, n + 1), clock)
  {
    CreateWritesOneMore(rows, st, item, n, now);
    TakeOneRow(AppliedAll(rows, CreateWrites(st, item, n, now)), t, clock, st, n, now);
  }

  lemma {:induction false} CreateApplies(rows: Rows, t: Table, clock: TimeText, st: Stack, item: Item, n: nat, now: string)
    requires Represents(rows, t, clock) && Encodes(item, AStack(st), clock) && n <= |st.ports|
    requires forall i :: 0 <= i < n ==> Lockable(t, st.ports[i].nodePort)
    ensures Represents(AppliedAll(rows, CreateWrites(st, item, n, now)), Taken(t, st, n), clock)
  {
    if n == 0 {
      CreateStarts(rows, t, clock, st, item, now);
    } else {
      CreateApplies(rows, t, clock, st, item, n - 1, now);
      CreateAppliesNext(rows, t, clock, st, item, n - 1, now);
    }
  }

  // ---------- The delete transaction ----------

  function FreePort(st: Stack, i: nat): Write
    requires i < |st.ports|
  {
    Write.Delete(KeyOf(PortRef(st.ports[i].nodePort)), Always)
  }

  function DeleteWrites(st: Stack, n: nat): seq<Write>
    requires n <= |st.ports|
  {
    [Write.Delete(KeyOf(StackRef(st.stackID)), Present)] + seq(n, i requires 0 <= i < n => FreePort(st, i))
  }

  /** What the delete of step `i` is of: the stack, then its ports in order. */
  function Deleted(st: Stack, i: nat): Ref
    requires i <= |st.ports|
  {
    if i == 0 then StackRef(st.stackID) else PortRef(st.ports[i - 1].nodePort)
  }

  lemma DeletedKey(st: Stack, i: nat)
    requires i <= |st.ports|
    ensures DeleteWrites(st, |st.ports|)[i].key == KeyOf(Deleted(st, i))
  {
  }

  lemma DeleteRepeats(st: Stack)
    requires Distinct(NodePorts(st.ports))
    ensures !Repeats(DeleteWrites(st, |st.ports|))
  {
    var ws := DeleteWrites(st, |st.ports|);
    forall i, j | 0 <= i < j < |ws| ensures ws[i].key != ws[j].key {
      DeletedKey(st, i);
      DeletedKey(st, j);
      assert i > 0 ==> NodePorts(st.ports)[i - 1] != NodePorts(st.ports)[j - 1];
      KeysDiffer(Deleted(st, i), Deleted(st, j));
    }
  }

  function Freed(t: Table, st: Stack, n: nat): Table
    requires n <= |st.ports|
  {
    t.(stacks := t.stacks - {st.stackID}, ports := t.ports - FirstPorts(st, n))
  }

  lemma DeleteWritesOneMore(rows: Rows, st: Stack, n: nat)
    requires n < |st.ports|
    ensures AppliedAll(rows, DeleteWrites(st, n + 1)) == Applied(AppliedAll(rows, DeleteWrites(st, n)), FreePort(st, n))
  {
    DeleteWritesGrow(st, n);
    var ws := DeleteWrites(st, n + 1);
    assert ws[..|ws| - 1] == DeleteWrites(st, n);
  }

  lemma DeleteWritesGrow(st: Stack, n: nat)
    requires n < |st.ports|
    ensures DeleteWrites(st, n + 1) == DeleteWrites(st, n) + [FreePort(st, n)]
  {
  }

  lemma FreedOneMore(t: Table, st: Stack, n: nat)
    requires n < |st.ports|
    ensures forall r :: Lookup(Freed(t, st, n + 1), r) == if r == PortRef(st.ports[n].nodePort) then None else Lookup(Freed(t, st, n), r)
  {
    OneMorePort(st, n);
    var p, after, before := st.ports[n].nodePort, Freed(t, st, n + 1), Freed(t, st, n);
    forall r ensures Lookup(after, r) == if r == PortRef(p) then None else Lookup(before, r) {
      if r.PortRef? && r.port != p {
        assert r.port in FirstPorts(st, n + 1) <==> r.port in FirstPorts(st, n);
      }
    }
  }

  /** Freeing one more port deletes one row. */
  lemma FreeOneRow(rows: Rows, t: Table, clock: TimeText, st: Stack, n: nat)
    requires n < |st.ports| && Represents(rows, Freed(t, st, n), clock)
    ensures Represents(Applied(rows, FreePort(st, n)), Freed(t, st, n + 1), clock)
  {
    FreedOneMore(t, st, n);
    DropRow(rows, Freed(t, st, n), Freed(t, st, n + 1), clock, PortRef(st.ports[n].nodePort));
  }

  lemma FirstDelete(rows: Rows, st: Stack)
    ensures AppliedAll(rows, DeleteWrites(st, 0)) == rows - {KeyOf(StackRef(st.stackID))}
  {
    var ws := DeleteWrites(st, 0);
    assert ws[..0] == [] && AppliedAll(rows, []) == rows;
  }

  lemma FreedNone(t: Table, st: Stack)
    ensures forall r :: Lookup(Freed(t, st, 0), r) == if r == StackRef(st.stackID) then None else Lookup(t, r)
  {
  }

  lemma DeleteStarts(rows: Rows, t: Table, clock: TimeText, st: Stack)
    requires Represents(rows, t, clock)
    ensures Represents(AppliedAll(rows, DeleteWrites(st, 0)), Freed(t, st, 0), clock)
  {
    FirstDelete(rows, st);
    FreedNone(t, st);
    DropRow(rows, t, Freed(t, st, 0), clock, StackRef(st.stackID));
  }

  lemma DeleteContinues(rows: Rows, t: Table, clock: TimeText, st: Stack, n: nat)
    requires n < |st.ports| && Represents(AppliedAll(rows, DeleteWrites(st, n)), Freed(t, st, n), clock)
    ensures Represents(AppliedAll(rows, DeleteWrites(st, n + 1)), Freed(t, st, n + 1), clock)
  {
    DeleteWritesOneMore(rows, st, n);
    FreeOneRow(AppliedAll(rows, DeleteWrites(st, n)), t, clock, st, n);
  }

  lemma {:induction false} DeleteApplies(rows: Rows, t: Table, clock: TimeText, st: Stack, n: nat)
    requires Represents(rows, t, clock) && n <= |st.ports|
    ensures Represents(AppliedAll(rows, DeleteWrites(st, n)), Freed(t, st, n), clock)
  {
    if n == 0 {
      DeleteStarts(rows, t, clock, st);
    } else {
      DeleteApplies(rows, t, clock, st, n - 1);
      DeleteContinues(rows, t, clock, st, n - 1);
    }
  }

  // ---------- Reserving ----------

  /** A probe that puts a lock where there is no item, and reclaims a stale lock. */
  function Scan(t: Table, min: int, total: int, start: nat, i: nat, now: int, staleBefore: int): (Table, Option<int>)
    requires total > 0 && i <= total
    decreases total - i
  {
    if i == total then (t, None)
    else
      var port := PortAt(min, total, start, i);
      match (PutLock(t, port, now), Reclaim(t, port, now, staleBefore))
      case (Some(t'), _) => (t', Some(port))
      case (None, Some(t')) => (t', Some(port))
      case (None, None) => Scan(t, min, total, start, i + 1, now, staleBefore)
  }

  lemma LockRow(rows: Rows, t: Table, t': Table, clock: TimeText, port: int, item: Item, p: PortItem)
    requires Represents(rows, t, clock) && IsPortRow(item, p) && t' == t.(ports := t.ports[port := p])
    ensures Represents(rows[KeyOf(PortRef(port)) := item], t', clock)
  {
    forall r ensures Lookup(t', r) == if r == PortRef(port) then Some(APort(p)) else Lookup(t, r) {}
    SetRow(rows, t, t', clock, PortRef(port), item, APort(p));
  }

  /** What a reclaim sets. */
  function Relocked(now: int, at: string): Item {
    map[Name.CreatedAt := S(at), Name.LockedAt := N(Itoa(now))]
  }

  lemma RelockedRow(item: Item, p: PortItem, now: int, at: string)
    requires IsPortRow(item, p)
    ensures IsPortRow(item + Relocked(now, at), p.(lockedAt := Some(now)))
  {
    NumberOfItoa(now);
  }

  lemma NewlyLockedRow(now: int, at: string)
    ensures IsPortRow(map[] + Relocked(now, at), PortItem(None, Some(now)))
  {
    NumberOfItoa(now);
  }

  /** The row a reclaim leaves: the old one, or none, with the lock time set. */
  lemma ReclaimedRow(rows: Rows, t: Table, clock: TimeText, port: int, now: int, at: string)
    requires Represents(rows, t, clock)
    ensures var key := KeyOf(PortRef(port));
            IsPortRow((if key in rows then rows[key] else map[]) + Relocked(now, at),
                      PortItem(if port in t.ports then t.ports[port].owner else None, Some(now)))
  {
    assert KeyOf(PortRef(port)) in rows <==> Lookup(t, PortRef(port)).Some?;
    if port in t.ports {
      RelockedRow(rows[KeyOf(PortRef(port))], t.ports[port], now, at);
    } else {
      NewlyLockedRow(now, at);
    }
  }

  lemma PutRow(rows: Rows, t: Table, clock: TimeText, port: int, lock: Item, now: int)
    requires Represents(rows, t, clock) && PutLock(t, port, now).Some? && Name.IndexPK !in lock
    requires Has(lock, Name.StackID, S("")) && Has(lock, Name.LockedAt, N(Itoa(now)))
    ensures Represents(rows[KeyOf(PortRef(port)) := lock], PutLock(t, port, now).value, clock)
  {
    NumberOfItoa(now);
    LockRow(rows, t, PutLock(t, port, now).value, clock, port, lock, PortItem(Some(""), Some(now)));
  }

  lemma ReleaseRow(rows: Rows, t: Table, clock: TimeText, port: int)
    requires Represents(rows, t, clock) && (port in t.ports ==> t.ports[port].Tentative())
    ensures Represents(rows - {KeyOf(PortRef(port))}, ReleaseLock(t, port), clock)
  {
    var after := ReleaseLock(t, port);
    forall r ensures Lookup(after, r) == if r == PortRef(port) then None else Lookup(t, r) {}
    DropRow(rows, t, after, clock, PortRef(port));
  }

  lemma ReclaimRow(rows: Rows, t: Table, clock: TimeText, port: int, now: int, at: string, staleBefore: int)
    requires Represents(rows, t, clock) && Reclaim(t, port, now, staleBefore).Some?
    ensures Represents(Applied(rows, Update(KeyOf(PortRef(port)), Relocked(now, at), UnownedSince(staleBefore))),
                       Reclaim(t, port, now, staleBefore).value, clock)
  {
    ReclaimedRow(rows, t, clock, port, now, at);
    var key, after := KeyOf(PortRef(port)), Reclaim(t, port, now, staleBefore).value;
    LockRow(rows, t, after, clock, port, (if key in rows then rows[key] else map[]) + Relocked(now, at), after.ports[port]);
  }

  /** The conditional put of a lock, on the rows and on the typed table. */
  lemma PutMeans(rows: Rows, t: Table, clock: TimeText, port: int, lock: Item, now: int)
    requires Represents(rows, t, clock) && Name.IndexPK !in lock
    requires Has(lock, Name.StackID, S("")) && Has(lock, Name.LockedAt, N(Itoa(now)))
    ensures var put := WriteItem(rows, Put(KeyOf(PortRef(port)), lock, Absent));
            && (put.Some? <==> PutLock(t, port, now).Some?)
            && (put.Some? ==> Represents(put.value, PutLock(t, port, now).value, clock))
  {
    ConditionsMean(rows, t, clock, "", port, 0);
    if PutLock(t, port, now).Some? { PutRow(rows, t, clock, port, lock, now); }
  }

  /** The conditional update of a stale lock. */
  lemma ReclaimMeans(rows: Rows, t: Table, clock: TimeText, port: int, now: int, at: string, staleBefore: int)
    requires Represents(rows, t, clock)
    ensures var reclaimed := WriteItem(rows, Update(KeyOf(PortRef(port)), Relocked(now, at), UnownedSince(staleBefore)));
            && (reclaimed.Some? <==> Reclaim(t, port, now, staleBefore).Some?)
            && (reclaimed.Some? ==> Represents(reclaimed.value, Reclaim(t, port, now, staleBefore).value, clock))
  {
    ConditionsMean(rows, t, clock, "", port, staleBefore);
    if Reclaim(t, port, now, staleBefore).Some? { ReclaimRow(rows, t, clock, port, now, at, staleBefore); }
  }

  /** `after` and `r` are what a probe from `start` makes of `before`. */
  predicate Reserves(before: Table, after: Table, r: Result<int, Error>, min: int, max: int, start: nat, now: int, ttl: int) {
    && start < max - min + 1
    && var (t, port) := Scan(before, min, max - min + 1, start, 0, now, now - ttl);
       after == t && r == if port.Some? then Ok(port.value) else Err(NoAvailableNodePort)
  }

  lemma StackRowOf(rows: Rows, t: Table, clock: TimeText, id: string)
    requires Represents(rows, t, clock)
    ensures KeyOf(StackRef(id)) in rows <==> id in t.stacks
    ensures id in t.stacks ==> Encodes(rows[KeyOf(StackRef(id))], AStack(t.stacks[id]), clock)
  {
    assert KeyOf(StackRef(id)) in rows <==> Lookup(t, StackRef(id)).Some?;
  }

  lemma JobRowOf(rows: Rows, t: Table, clock: TimeText, id: string)
    requires Represents(rows, t, clock)
    ensures KeyOf(JobRef(id)) in rows <==> id in t.jobs
    ensures id in t.jobs ==> Encodes(rows[KeyOf(JobRef(id))], AJob(t.jobs[id]), clock)
  {
    assert KeyOf(JobRef(id)) in rows <==> Lookup(t, JobRef(id)).Some?;
  }

  lemma StackRowSet(rows: Rows, t: Table, t': Table, clock: TimeText, id: string, item: Item, st: Stack)
    requires Represents(rows, t, clock) && Encodes(item, AStack(st), clock) && t' == t.(stacks := t.stacks[id := st])
    ensures Represents(rows[KeyOf(StackRef(id)) := item], t', clock)
  {
    forall r ensures Lookup(t', r) == if r == StackRef(id) then Some(AStack(st)) else Lookup(t, r) {}
    SetRow(rows, t, t', clock, StackRef(id), item, AStack(st));
  }

  lemma MergeStatus(item: Item, sets: Item, status: string, nodeID: string, now: string)
    requires sets == map[Name.Status := S(status), Name.NodeID := S(nodeID), Name.UpdatedAt := S(now)]
    ensures item + sets == WithStatus(item, status, nodeID, now)
  {
  }

  lemma StatusRowSet(rows: Rows, t: Table, clock: TimeText, id: string, status: string, nodeID: string, now: Time)
    requires clock.Inverse() && Represents(rows, t, clock) && id in t.stacks
    ensures KeyOf(StackRef(id)) in rows
    ensures Represents(rows[KeyOf(StackRef(id)) := WithStatus(rows[KeyOf(StackRef(id))], status, nodeID, clock.format(now))],
                       SetStatus(t, id, status, nodeID, now).value, clock)
  {
    StackRowOf(rows, t, clock, id);
    var item := rows[KeyOf(StackRef(id))];
    StatusCommutes(item, status, nodeID, now, clock);
    var after := SetStatus(t, id, status, nodeID, now).value;
    StackRowSet(rows, t, after, clock, id, WithStatus(item, status, nodeID, clock.format(now)), after.stacks[id]);
  }

  lemma JobSet(rows: Rows, t: Table, t': Table, clock: TimeText, id: string, item: Item, job: BatchDeleteJob)
    requires Represents(rows, t, clock) && Encodes(item, AJob(job), clock) && t' == t.(jobs := t.jobs[id := job])
    ensures Represents(rows[KeyOf(JobRef(id)) := item], t', clock)
  {
    forall r ensures Lookup(t', r) == if r == JobRef(id) then Some(AJob(job)) else Lookup(t, r) {}
    SetRow(rows, t, t', clock, JobRef(id), item, AJob(job));
  }

  lemma JobItemEncodes(job: BatchDeleteJob, clock: TimeText)
    requires clock.Inverse() && JobFits(job)
    ensures Encodes(JobToItem(job, clock), AJob(job), clock)
  {
    JobRoundTrip(job, clock);
    JobItemAttributes(job, clock);
  }

  lemma JobRowEncodes(job: BatchDeleteJob, clock: TimeText)
    requires clock.Inverse() && JobFits(job)
    ensures Encodes(JobToItem(job, clock)[Name.ItemType := S("batch_delete_job")], AJob(job), clock)
  {
    JobItemEncodes(job, clock);
    TagKeepsJob(JobToItem(job, clock), job, clock, "batch_delete_job");
  }

  lemma JobRowSet(rows: Rows, t: Table, t': Table, clock: TimeText, job: BatchDeleteJob)
    requires clock.Inverse() && JobFits(job) && Represents(rows, t, clock) && t' == t.(jobs := t.jobs[job.jobID := job])
    ensures Represents(rows[KeyOf(JobRef(job.jobID)) := JobToItem(job, clock)[Name.ItemType := S("batch_delete_job")]], t', clock)
  {
    JobRowEncodes(job, clock);
    JobSet(rows, t, t', clock, job.jobID, JobToItem(job, clock)[Name.ItemType := S("batch_delete_job")], job);
  }

  /** The stack as the table keeps it: a public address that is present and empty is lost. */
  function Stored(st: Stack): Stack {
    if st.nodePublicIP == Some("") then st.(nodePublicIP := None) else st
  }

  /** The item type tag and an item's other attributes do not interfere. */
  lemma TagKeepsStack(item: Item, st: Stack, clock: TimeText, tag: string)
    requires Encodes(item, AStack(st), clock)
    ensures Encodes(item[Name.ItemType := S(tag)], AStack(st), clock)
  {
  }

  lemma TagKeepsJob(item: Item, job: BatchDeleteJob, clock: TimeText, tag: string)
    requires Encodes(item, AJob(job), clock)
    ensures Encodes(item[Name.ItemType := S(tag)], AJob(job), clock)
  {
  }

  lemma StackRowEncodes(st: Stack, clock: TimeText)
    requires clock.Inverse() && StackFits(st)
    ensures Encodes(StackToItem(st, clock)[Name.ItemType := S("stack_by_id")], AStack(Stored(st)), clock)
  {
    StackRoundTrip(st, clock);
    StackItemTexts(st, clock);
    TagKeepsStack(StackToItem(st, clock), Stored(st), clock, "stack_by_id");
  }

  /** The error a rejected create transaction is reported as: by the first condition that failed. */
  function TransactionError(e: TxError): Error {
    match e
    case Repeated => Failure("transaction names one item twice")
    case Cancelled(failed) => if failed != [] && failed[0] then AlreadyExists else NoAvailableNodePort
  }

  lemma PortsOfStack(st: Stack, i: nat)
    requires i < |st.ports|
    ensures st.ports[i].nodePort in PortSet(st)
  {
  }

  /** When no condition fails, every port of the stack is locked; when one does, some port is not or the stack exists. */
  lemma CreateFailures(rows: Rows, t: Table, clock: TimeText, st: Stack, item: Item, now: string)
    requires Represents(rows, t, clock)
    ensures true in FailedConditions(rows, CreateWrites(st, item, |st.ports|, now)) <==>
            (st.stackID in t.stacks || exists p :: p in PortSet(st) && !Lockable(t, p))
  {
    var failed := FailedConditions(rows, CreateWrites(st, item, |st.ports|, now));
    CreateConditions(rows, t, clock, st, item, now);
    if true in failed {
      var k :| 0 <= k < |failed| && failed[k];
      if k > 0 {
        assert failed[k - 1 + 1];
        PortsOfStack(st, k - 1);
      }
    } else {
      assert !failed[0];
      forall p | p in PortSet(st) ensures Lockable(t, p) {
        var i :| 0 <= i < |st.ports| && st.ports[i].nodePort == p;
        assert !failed[i + 1];
      }
    }
  }

  /** The transaction goes through exactly when the typed one does. */
  lemma CreateSucceeds(rows: Rows, t: Table, clock: TimeText, st: Stack, item: Item, now: string)
    requires Represents(rows, t, clock) && |st.ports| > 0
    ensures CommitTx(t, st).Ok? <==> Transact(rows, CreateWrites(st, item, |st.ports|, now)).Ok?
    ensures CommitTx(t, st).Ok? ==> forall i :: 0 <= i < |st.ports| ==> Lockable(t, st.ports[i].nodePort)
  {
    CreateRepeats(st, item, now);
    CreateFailures(rows, t, clock, st, item, now);
    forall i | CommitTx(t, st).Ok? && 0 <= i < |st.ports| ensures Lockable(t, st.ports[i].nodePort) {
      PortsOfStack(st, i);
    }
  }

  /** Its error tells which condition failed first. */
  lemma CreateFails(rows: Rows, t: Table, clock: TimeText, st: Stack, item: Item, now: string)
    requires Represents(rows, t, clock) && |st.ports| > 0 && CommitTx(t, st).Err?
    ensures var result := Transact(rows, CreateWrites(st, item, |st.ports|, now));
            result.Err? && CommitTx(t, st).error == TransactionError(result.error)
  {
    CreateSucceeds(rows, t, clock, st, item, now);
    CreateRepeats(st, item, now);
    CreateConditions(rows, t, clock, st, item, now);
  }

  lemma CreateCommits(rows: Rows, t: Table, clock: TimeText, st: Stack, item: Item, now: string)
    requires Represents(rows, t, clock) && Encodes(item, AStack(st), clock) && CommitTx(t, st).Ok?
    ensures var result := Transact(rows, CreateWrites(st, item, |st.ports|, now));
            result.Ok? && Represents(result.value, CommitTx(t, st).value, clock)
  {
    CreateSucceeds(rows, t, clock, st, item, now);
    CreateApplies(rows, t, clock, st, item, |st.ports|, now);
    AllTaken(t, st);
  }

  /** The transaction for a stack as the program has it, against the typed one for the stack as it is kept. */
  lemma CreateOutcome(rows: Rows, t: Table, clock: TimeText, st: Stack, item: Item, now: string)
    requires Represents(rows, t, clock) && WellFormed(t) && Encodes(item, AStack(Stored(st)), clock) && |st.ports| > 0
    ensures var result := Transact(rows, CreateWrites(st, item, |st.ports|, now));
            match CommitTx(t, Stored(st))
            case Ok(t') => result.Ok? && Represents(result.value, t', clock) && WellFormed(t')
            case Err(e) => result.Err? && e == TransactionError(result.error)
  {
    assert CreateWrites(st, item, |st.ports|, now) == CreateWrites(Stored(st), item, |st.ports|, now);
    if CommitTx(t, Stored(st)).Ok? {
      CreateCommits(rows, t, clock, Stored(st), item, now);
      KeepsForm(t, Stored(st));
    } else {
      CreateFails(rows, t, clock, Stored(st), item, now);
    }
  }

  lemma AllTaken(t: Table, st: Stack)
    requires CommitTx(t, st).Ok?
    ensures Taken(t, st, |st.ports|) == CommitTx(t, st).value
  {
    assert FirstPorts(st, |st.ports|) == PortSet(st);
  }

  lemma DeleteConditions(rows: Rows, t: Table, clock: TimeText, st: Stack)
    requires Represents(rows, t, clock) && st.stackID in t.stacks
    ensures !(true in FailedConditions(rows, DeleteWrites(st, |st.ports|)))
  {
    var ws := DeleteWrites(st, |st.ports|);
    StackRowOf(rows, t, clock, st.stackID);
    forall i | 0 <= i < |ws| ensures !FailedConditions(rows, ws)[i] {
      if i > 0 { assert ws[i] == FreePort(st, i - 1); }
    }
  }

  lemma AllFreed(t: Table, st: Stack)
    requires st.stackID in t.stacks
    ensures DeleteTx(t, st) == Some(Freed(t, st, |st.ports|))
  {
    assert FirstPorts(st, |st.ports|) == PortSet(st);
  }

  lemma DeleteOutcome(rows: Rows, t: Table, clock: TimeText, st: Stack)
    requires Represents(rows, t, clock) && st.stackID in t.stacks && Distinct(NodePorts(st.ports))
    ensures var result := Transact(rows, DeleteWrites(st, |st.ports|));
            result.Ok? && DeleteTx(t, st).Some? && Represents(result.value, DeleteTx(t, st).value, clock)
  {
    DeleteRepeats(st);
    DeleteConditions(rows, t, clock, st);
    DeleteApplies(rows, t, clock, st, |st.ports|);
    AllFreed(t, st);
  }

  // ---------- The implementation ----------

  /** The item of a stack, its lists encoded entry by entry. */
  method EncodeStack(st: Stack, clock: TimeText) returns (item: Item)
    ensures item == StackToItem(st, clock)
  {
    var targetPorts := EncodeList(st.targetPorts, SpecToAttr);
    var ports := EncodeList(st.ports, MappingToAttr);
    item := StackItem(st, targetPorts, ports, clock);
  }

  /** With the tag that tells items apart. */
  method EncodeStackRow(st: Stack, clock: TimeText) returns (item: Item)
    requires clock.Inverse() && StackFits(st)
    ensures Encodes(item, AStack(Stored(st)), clock)
  {
    item := EncodeStack(st, clock);
    StackRowEncodes(st, clock);
    item := item[Name.ItemType := S("stack_by_id")];
  }

  method DecodeStack(item: Item, clock: TimeText) returns (st: Option<Stack>)
    ensures st == StackFromItem(item, clock)
  {
    var targetPorts := DecodeAttrList(item, Name.TargetPorts, SpecFromAttr);
    var ports := DecodeAttrList(item, Name.Ports, MappingFromAttr);
    return StackOfItem(item, OrElse(targetPorts, []), OrElse(ports, []), clock);
  }

  method EncodeJob(job: BatchDeleteJob, clock: TimeText) returns (item: Item)
    ensures item == JobToItem(job, clock)
  {
    var errors := EncodeList(job.errors, ErrorToAttr);
    item := JobItem(job, errors, clock);
  }

  method DecodeJob(item: Item, clock: TimeText) returns (job: Option<BatchDeleteJob>)
    ensures job == JobFromItem(item, clock)
  {
    var errors := DecodeAttrList(item, Name.Errors, ErrorFromAttr);
    return JobOfItem(item, OrElse(errors, []), clock);
  }

  method WritesToCreate(st: Stack, item: Item, now: string) returns (writes: seq<Write>)
    ensures writes == CreateWrites(st, item, |st.ports|, now)
  {
    writes := [Put(KeyOf(StackRef(st.stackID)), item, Absent)];
    for i := 0 to |st.ports|
      invariant writes == CreateWrites(st, item, i, now)
    {
      writes := writes + [TakePort(st, i, now)];
    }
  }

  method WritesToDelete(st: Stack) returns (writes: seq<Write>)
    ensures writes == DeleteWrites(st, |st.ports|)
  {
    writes := [Write.Delete(KeyOf(StackRef(st.stackID)), Present)];
    for i := 0 to |st.ports|
      invariant writes == DeleteWrites(st, i)
    {
      writes := writes + [FreePort(st, i)];
    }
  }

  class DynamoRepository {
    var table: Rows
    const clock: TimeText
    const lockTTL: int      // the port-lock lifetime in whole seconds
    ghost var typed: Table  // what the rows stand for

    ghost predicate Valid()
      reads this
    {
      clock.Inverse() && Represents(table, typed, clock) && WellFormed(typed)
    }

    constructor (clock: TimeText, lockTTL: int)
      requires clock.Inverse()
      ensures Valid() && table == map[] && typed == Table(map[], map[], map[])
      ensures this.clock == clock && this.lockTTL == lockTTL
    {
      this.clock, this.lockTTL := clock, lockTTL;
      table, typed := map[], Table(map[], map[], map[]);
    }

    method Create(st: Stack, now: Time) returns (err: Option<Error>)
      requires Valid() && StackFits(st)
      modifies this
      ensures Valid()
      ensures match CommitTx(old(typed), Stored(st))
              case Ok(t) => err == None && typed == t
              case Err(e) => err == Some(e) && typed == old(typed) && table == old(table)
    {
      var item := EncodeStackRow(st, clock);
      if |st.ports| == 0 {
        return Some(NoAvailableNodePort);
      }
      var writes := WritesToCreate(st, item, clock.format(now));
      CreateOutcome(table, typed, clock, st, item, clock.format(now));
      var result := Transact(table, writes);
      if result.Err? {
        return Some(TransactionError(result.error));
      }
      table, typed := result.value, CommitTx(typed, Stored(st)).value;
      return None;
    }

    method Get(id: string) returns (st: Option<Stack>)
      requires Valid()
      ensures st == if id in typed.stacks then Some(typed.stacks[id]) else None
    {
      StackRowOf(table, typed, clock, id);
      if KeyOf(StackRef(id)) !in table {
        return None;
      }
      st := DecodeStack(table[KeyOf(StackRef(id))], clock);
    }

    method Delete(id: string) returns (st: Option<Stack>)
      requires Valid()
      modifies this
      ensures Valid()
      ensures if id in old(typed.stacks)
              then st == Some(old(typed.stacks)[id]) && DeleteTx(old(typed), old(typed.stacks)[id]) == Some(typed)
              else st == None && typed == old(typed) && table == old(table)
    {
      st := Get(id);
      if st.None? {
        return;
      }
      var writes := WritesToDelete(st.value);
      DeleteOutcome(table, typed, clock, st.value);
      var result := Transact(table, writes);
      table, typed := result.value, DeleteTx(typed, st.value).value;
    }

    method UpdateStatus(id: string, status: string, nodeID: string, now: Time) returns (err: Option<Error>)
      requires Valid()
      modifies this
      ensures Valid()
      ensures match SetStatus(old(typed), id, status, nodeID, now)
              case Some(t) => err == None && typed == t
              case None => err == Some(Error.NotFound) && typed == old(typed) && table == old(table)
    {
      StackRowOf(table, typed, clock, id);
      var key := KeyOf(StackRef(id));
      var sets: Item := map[Name.Status := S(status), Name.NodeID := S(nodeID), Name.UpdatedAt := S(clock.format(now))];
      var rows := WriteItem(table, Update(key, sets, Present));
      if rows.None? {
        return Some(Error.NotFound);
      }
      MergeStatus(table[key], sets, status, nodeID, clock.format(now));
      StatusRowSet(table, typed, clock, id, status, nodeID, now);
      table, typed := rows.value, SetStatus(typed, id, status, nodeID, now).value;
      return None;
    }

    method PutNewLock(port: int, now: Time) returns (ok: bool)
      requires Valid()
      modifies this
      ensures Valid()
      ensures match PutLock(old(typed), port, Seconds(now))
              case Some(t) => ok && typed == t
              case None => !ok && typed == old(typed) && table == old(table)
    {
      var second := Seconds(now);
      var key := KeyOf(PortRef(port));
      var lock: Item := map[
        Name.ItemType := S("port_lock"), Name.Port := N(Itoa(port)), Name.CreatedAt := S(clock.format(now)),
        Name.LockedAt := N(Itoa(second)), Name.StackID := S("")];
      PutMeans(table, typed, clock, port, lock, second);
      var put := WriteItem(table, Put(key, lock, Absent));
      ok := put.Some?;
      if ok {
        table, typed := put.value, PutLock(typed, port, second).value;
      }
    }

    method TakeOverLock(port: int, now: Time) returns (ok: bool)
      requires Valid()
      modifies this
      ensures Valid()
      ensures match Reclaim(old(typed), port, Seconds(now), Seconds(now) - lockTTL)
              case Some(t) => ok && typed == t
              case None => !ok && typed == old(typed) && table == old(table)
    {
      var second := Seconds(now);
      var staleBefore := second - lockTTL;
      ReclaimMeans(table, typed, clock, port, second, clock.format(now), staleBefore);
      var reclaimed := WriteItem(table, Update(KeyOf(PortRef(port)), Relocked(second, clock.format(now)), UnownedSince(staleBefore)));
      ok := reclaimed.Some?;
      if ok {
        table, typed := reclaimed.value, Reclaim(typed, port, second, staleBefore).value;
      }
    }

    /** One port of a probe: a lock where there is no item, or else a reclaim. */
    method TryPort(port: int, now: Time) returns (ok: bool)
      requires Valid()
      modifies this
      ensures Valid()
      ensures match (PutLock(old(typed), port, Seconds(now)), Reclaim(old(typed), port, Seconds(now), Seconds(now) - lockTTL))
              case (Some(t), _) => ok && typed == t
              case (None, Some(t)) => ok && typed == t
              case (None, None) => !ok && typed == old(typed) && table == old(table)
    {
      ok := PutNewLock(port, now);
      if !ok {
        ok := TakeOverLock(port, now);
      }
    }

    /** Probes from a random start; `now` is the time in nanoseconds, locks count whole seconds. */
    method ReserveNodePort(min: int, max: int, now: Time) returns (r: Result<int, Error>, ghost start: nat)
      requires Valid()
      modifies this
      ensures Valid()
      ensures max < min ==> r == Err(NoAvailableNodePort) && typed == old(typed)
      ensures max >= min ==> Reserves(old(typed), typed, r, min, max, start, Seconds(now), lockTTL)
    {
      var total := max - min + 1;
      if total <= 0 {
        return Err(NoAvailableNodePort), 0;
      }
      var offset: nat :| offset < total;
      ghost var t := typed;
      ghost var second := Seconds(now);
      for i := 0 to total
        invariant Valid() && typed == t
        invariant Scan(t, min, total, offset, 0, second, second - lockTTL) == Scan(t, min, total, offset, i, second, second - lockTTL)
      {
        var port := min + (offset + i) % total;
        var ok := TryPort(port, now);
        if ok {
          return Ok(port), offset;
        }
      }
      return Err(NoAvailableNodePort), offset;
    }

    /** A condition that fails is no error. */
    method ReleaseNodePort(port: int)
      requires Valid()
      modifies this
      ensures Valid() && typed == ReleaseLock(old(typed), port)
    {
      ConditionsMean(table, typed, clock, "", port, 0);
      var rows := WriteItem(table, Write.Delete(KeyOf(PortRef(port)), Unowned));
      if rows.Some? {
        ReleaseRow(table, typed, clock, port);
        table, typed := rows.value, ReleaseLock(typed, port);
      }
    }

    method CreateBatchDeleteJob(job: BatchDeleteJob) returns (err: Option<Error>)
      requires Valid() && JobFits(job)
      modifies this
      ensures Valid()
      ensures if job.jobID in old(typed.jobs) then err == Some(AlreadyExists) && typed == old(typed)
              else err == None && typed == old(typed).(jobs := old(typed).jobs[job.jobID := job])
    {
      JobRowOf(table, typed, clock, job.jobID);
      var item := EncodeJob(job, clock);
      item := item[Name.ItemType := S("batch_delete_job")];
      var rows := WriteItem(table, Put(KeyOf(JobRef(job.jobID)), item, Absent));
      if rows.None? {
        return Some(AlreadyExists);
      }
      JobRowSet(table, typed, typed.(jobs := typed.jobs[job.jobID := job]), clock, job);
      table, typed := rows.value, typed.(jobs := typed.jobs[job.jobID := job]);
      return None;
    }

    method UpdateBatchDeleteJob(job: BatchDeleteJob) returns (err: Option<Error>)
      requires Valid() && JobFits(job)
      modifies this
      ensures Valid()
      ensures if job.jobID in old(typed.jobs) then err == None && typed == old(typed).(jobs := old(typed).jobs[job.jobID := job])
              else err == Some(Error.NotFound) && typed == old(typed)
    {
      JobRowOf(table, typed, clock, job.jobID);
      var item := EncodeJob(job, clock);
      item := item[Name.ItemType := S("batch_delete_job")];
      var rows := WriteItem(table, Put(KeyOf(JobRef(job.jobID)), item, Present));
      if rows.None? {
        return Some(Error.NotFound);
      }
      JobRowSet(table, typed, typed.(jobs := typed.jobs[job.jobID := job]), clock, job);
      table, typed := rows.value, typed.(jobs := typed.jobs[job.jobID := job]);
      return None;
    }

    method GetBatchDeleteJob(id: string) returns (job: Option<BatchDeleteJob>)
      requires Valid()
      ensures job == if id in typed.jobs then Some(typed.jobs[id]) else None
    {
      JobRowOf(table, typed, clock, id);
      if KeyOf(JobRef(id)) !in table {
        return None;
      }
      job := DecodeJob(table[KeyOf(JobRef(id))], clock);
    }

    /** Counts the port items page by page. */
    method UsedNodePortCount() returns (total: nat)
      requires Valid()
      ensures total == |typed.ports|
    {
      total := 0;
      var left := set key | key in table && key.pk == PORTS;
      PartitionCounted(table, typed, clock, left);
      while left != {}
        invariant total + |left| == |typed.ports|
        decreases left
      {
        var page :| {} < page <= left;
        assert left == (left - page) + page;
        total := total + |page|;
        left := left - page;
      }
    }

    /** Reads the index over all stacks page by page, then sorts by creation. */
    method ListAll() returns (result: seq<Stack>)
      requires Valid()
      ensures Repository.IsListing(result, typed.stacks)
    {
      result := [];
      var rows := table;
      ghost var t := typed;
      var left := set key | key in rows && Has(rows[key], Name.IndexPK, S(ALL_STACKS));
      IndexedKeys(rows, t, clock, left);
      while left != {}
        invariant Collected(result, t.stacks, left)
        decreases |left|
      {
        var page :| {} < page <= left;
        ghost var size := |left|;
        while page != {}
          invariant page <= left && Collected(result, t.stacks, left)
          invariant |left| < size || (|left| == size && page != {})
          decreases |page|
        {
          var key :| key in page;
          ReadOneMore(rows, t, clock, result, left, key);
          var st := DecodeStack(rows[key], clock);
          result := result + [st.value];
          page, left := page - {key}, left - {key};
        }
      }
      CollectedAll(result, typed.stacks);
      result := Repository.SortByCreation(result);
    }
  }

  // ---------- Queries ----------

  function StackKeysOf(ids: set<string>): set<Key> {
    set id | id in ids :: KeyOf(StackRef(id))
  }

  function PortKeysOf(ports: set<int>): set<Key> {
    set p | p in ports :: KeyOf(PortRef(p))
  }

  lemma {:induction false} StackKeysCounted(ids: set<string>)
    ensures |StackKeysOf(ids)| == |ids|
  {
    if ids != {} {
      var id :| id in ids;
      StackKeysCounted(ids - {id});
      KeysAreInjective();
      assert StackKeysOf(ids) == StackKeysOf(ids - {id}) + {KeyOf(StackRef(id))};
    }
  }

  lemma OneOf<T>(xs: set<T>) returns (x: T)
    requires xs != {}
    ensures x in xs
  {
    x :| x in xs;
  }

  lemma {:induction false} PortKeysCounted(ports: set<int>)
    ensures |PortKeysOf(ports)| == |ports|
  {
    if ports != {} {
      var p := OneOf(ports);
      PortKeysCounted(ports - {p});
      KeysAreInjective();
      assert PortKeysOf(ports) == PortKeysOf(ports - {p}) + {KeyOf(PortRef(p))};
    }
  }

  /** Exactly the items of ports are in the partition of ports. */
  lemma PartitionHoldsPorts(rows: Rows, t: Table, clock: TimeText, key: Key)
    requires Represents(rows, t, clock)
    ensures key in rows && key.pk == PORTS <==> key in PortKeysOf(t.ports.Keys)
  {
    if key in rows && key.pk == PORTS {
      var ref :| KeyOf(ref) == key;
      assert KeyOf(ref).pk[0] == PORTS[0];
      assert Lookup(t, ref).Some?;
    }
    if key in PortKeysOf(t.ports.Keys) {
      var p :| p in t.ports && key == KeyOf(PortRef(p));
      assert Lookup(t, PortRef(p)).Some?;
    }
  }

  lemma PartitionCounted(rows: Rows, t: Table, clock: TimeText, found: set<Key>)
    requires Represents(rows, t, clock) && forall key :: key in found <==> key in rows && key.pk == PORTS
    ensures |found| == |t.ports|
  {
    forall key ensures key in found <==> key in PortKeysOf(t.ports.Keys) {
      PartitionHoldsPorts(rows, t, clock, key);
    }
    assert found == PortKeysOf(t.ports.Keys);
    PortKeysCounted(t.ports.Keys);
  }

  /** The items not yet read are those of the stacks not yet collected. */
  ghost predicate Collected(result: seq<Stack>, stacks: map<string, Stack>, left: set<Key>) {
    && left <= StackKeysOf(stacks.Keys)
    && (forall id :: id in stacks ==> stacks[id].stackID == id)
    && (forall st :: st in result <==> st.stackID in stacks && stacks[st.stackID] == st && KeyOf(StackRef(st.stackID)) !in left)
    && Distinct(result)
    && |result| + |left| == |stacks|
  }

  /** Exactly the items of stacks are in the index. */
  lemma IndexHoldsStacks(rows: Rows, t: Table, clock: TimeText, key: Key)
    requires Represents(rows, t, clock)
    ensures key in rows && Has(rows[key], Name.IndexPK, S(ALL_STACKS)) <==> key in StackKeysOf(t.stacks.Keys)
  {
    if key in rows {
      var ref :| KeyOf(ref) == key;
      assert Encodes(rows[KeyOf(ref)], Lookup(t, ref).value, clock);
    }
    if key in StackKeysOf(t.stacks.Keys) {
      var id :| id in t.stacks && key == KeyOf(StackRef(id));
      StackRowOf(rows, t, clock, id);
    }
  }

  lemma IndexedKeys(rows: Rows, t: Table, clock: TimeText, found: set<Key>)
    requires Represents(rows, t, clock) && WellFormed(t)
    requires forall key :: key in found <==> key in rows && Has(rows[key], Name.IndexPK, S(ALL_STACKS))
    ensures Collected([], t.stacks, found)
  {
    forall key ensures key in found <==> key in StackKeysOf(t.stacks.Keys) {
      IndexHoldsStacks(rows, t, clock, key);
    }
    StackKeysCounted(t.stacks.Keys);
    assert found == StackKeysOf(t.stacks.Keys);
    forall id | id in t.stacks ensures KeyOf(StackRef(id)) in found {}
  }

  lemma CollectedOneMore(result: seq<Stack>, stacks: map<string, Stack>, left: set<Key>, id: string)
    requires Collected(result, stacks, left) && id in stacks && KeyOf(StackRef(id)) in left
    ensures Collected(result + [stacks[id]], stacks, left - {KeyOf(StackRef(id))})
  {
    var more := result + [stacks[id]];
    KeysAreInjective();
    assert stacks[id] !in result;
    forall st ensures st in more <==> st.stackID in stacks && stacks[st.stackID] == st && KeyOf(StackRef(st.stackID)) !in left - {KeyOf(StackRef(id))} {
      assert st in more <==> st in result || st == stacks[id];
    }
  }

  lemma ReadOneMore(rows: Rows, t: Table, clock: TimeText, result: seq<Stack>, left: set<Key>, key: Key)
    ensures Represents(rows, t, clock) && Collected(result, t.stacks, left) && key in left ==>
              && key in rows && StackFromItem(rows[key], clock).Some?
              && Collected(result + [StackFromItem(rows[key], clock).value], t.stacks, left - {key})
  {
    if Represents(rows, t, clock) && Collected(result, t.stacks, left) && key in left {
      var id :| id in t.stacks && key == KeyOf(StackRef(id));
      StackRowOf(rows, t, clock, id);
      CollectedOneMore(result, t.stacks, left, id);
    }
  }

  lemma CollectedAll(result: seq<Stack>, stacks: map<string, Stack>)
    requires Collected(result, stacks, {})
    ensures Repository.IsListing(Repository.SortByCreation(result), stacks)
  {
    Repository.DistinctListing(result, stacks);
  }

  const SECOND: Time := 1_000_000_000

  function Seconds(t: Time): int {
    t / SECOND
  }

  lemma KeepsForm(t: Table, st: Stack)
    requires WellFormed(t) && CommitTx(t, st).Ok?
    ensures WellFormed(CommitTx(t, st).value)
  {
    assert Distinct(NodePorts(st.ports));
  }
}
