/**
 The shared table, one typed map per kind of item, and the conditional writes the
 repository issues against it. Every function is one atomic call to the table;
 `None` means that the condition of the write failed and nothing changed.
 */
module PortTable {
  import opened Types

  /** A port item. A reclaim that finds no item creates one without an owner attribute. */
  datatype PortItem = PortItem(owner: Option<string>, lockedAt: Option<int>) {
    predicate Tentative() {
      owner.None? || owner.value == ""
    }
  }

  datatype Table = Table(
    stacks: map<string, Stack>,
    ports: map<int, PortItem>,
    jobs: map<string, BatchDeleteJob>)

  function PutLock(t: Table, port: int, now: int): Option<Table> {
    if port in t.ports then None
    else Some(t.(ports := t.ports[port := PortItem(Some(""), Some(now))]))
  }

  predicate Reclaimable(t: Table, port: int, staleBefore: int) {
    port in t.ports ==>
      && t.ports[port].Tentative()
      && (t.ports[port].lockedAt.Some? ==> t.ports[port].lockedAt.value < staleBefore)
  }

  /** An update that inserts the item when there is none. */
  function Reclaim(t: Table, port: int, now: int, staleBefore: int): Option<Table> {
    if Reclaimable(t, port, staleBefore) then
      var owner := if port in t.ports then t.ports[port].owner else None;
      Some(t.(ports := t.ports[port := PortItem(owner, Some(now))]))
    else None
  }

  function ReleaseLock(t: Table, port: int): Table {
    if port in t.ports && t.ports[port].Tentative() then t.(ports := t.ports - {port}) else t
  }

  predicate Lockable(t: Table, p: int) {
    p in t.ports && t.ports[p].Tentative()
  }

  /** One transaction: put the stack if absent, and take every port that is tentatively locked. */
  function CommitTx(t: Table, st: Stack): Result<Table, Error> {
    if |st.ports| == 0 then Err(NoAvailableNodePort)
    else if exists i, j :: 0 <= i < j < |st.ports| && st.ports[i].nodePort == st.ports[j].nodePort then
      Err(Failure("transaction names one item twice"))
    else if st.stackID in t.stacks then Err(AlreadyExists)
    else if exists p :: p in PortSet(st) && !Lockable(t, p) then Err(NoAvailableNodePort)
    else Ok(t.(stacks := t.stacks[st.stackID := st],
               ports := map p | p in t.ports ::
                 if p in PortSet(st) then t.ports[p].(owner := Some(st.stackID)) else t.ports[p]))
  }

  /** One transaction: delete the stack if present, and the port items of the copy read before. */
  function DeleteTx(t: Table, st: Stack): Option<Table> {
    if st.stackID in t.stacks then
      Some(t.(stacks := t.stacks - {st.stackID}, ports := t.ports - PortSet(st)))
    else None
  }

  function SetStatus(t: Table, id: string, status: string, nodeID: string, now: Time): Option<Table> {
    if id in t.stacks then
      Some(t.(stacks := t.stacks[id := t.stacks[id].(status := status, nodeID := nodeID, updatedAt := now)]))
    else None
  }
}
