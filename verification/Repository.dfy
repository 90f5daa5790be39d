/**
 The repository as three maps, what each operation does to them, and the in-memory
 implementation. A port maps to the stack that owns it, or to "" while it is reserved.
 */
module Repository {
  import opened Types
  import opened Arithmetic

  datatype Mem = Mem(
    stacks: map<string, Stack>,
    ports: map<int, string>,
    jobs: map<string, BatchDeleteJob>)

  /** Stacks and owned ports name each other; reserved ports belong to no stack. */
  ghost predicate Agree(stacks: map<string, Stack>, ports: map<int, string>) {
    && (forall id :: id in stacks ==> id != "" && stacks[id].stackID == id)
    && (forall p :: p in ports && ports[p] != "" ==> ports[p] in stacks && p in PortSet(stacks[ports[p]]))
    && (forall id, p :: id in stacks && p in PortSet(stacks[id]) ==> p in ports && ports[p] == id)
  }

  ghost predicate Consistent(m: Mem) {
    Agree(m.stacks, m.ports)
  }

  // ---------- Port ledger ----------

  /** Gives every port of `taken` to `owner`. */
  function Claim(ports: map<int, string>, taken: set<int>, owner: string): map<int, string> {
    map p | p in ports.Keys + taken :: if p in taken then owner else ports[p]
  }

  lemma ClaimNextPort(ports: map<int, string>, st: Stack, i: nat)
    requires i < |st.ports|
    ensures Claim(ports, FirstPorts(st, i + 1), st.stackID) == Claim(ports, FirstPorts(st, i), st.stackID)[st.ports[i].nodePort := st.stackID]
  {
    OneMorePort(st, i);
  }

  /** The first free port of a probe from step `i` on. */
  function Probe(ports: map<int, string>, min: int, total: int, start: nat, i: nat): (r: Option<int>)
    requires total > 0 && i <= total
    ensures r.Some? ==> r.value !in ports && min <= r.value < min + total
    decreases total - i
  {
    if i == total then None
    else if PortAt(min, total, start, i) !in ports then Some(PortAt(min, total, start, i))
    else Probe(ports, min, total, start, i + 1)
  }

  // ---------- Operations ----------

  predicate Commits(m: Mem, st: Stack) {
    && st.stackID !in m.stacks
    && st.ports != []
    && forall i :: 0 <= i < |st.ports| ==> st.ports[i].nodePort in m.ports && m.ports[st.ports[i].nodePort] == ""
  }

  function AfterCreate(m: Mem, st: Stack): Mem {
    if Commits(m, st) then
      m.(stacks := m.stacks[st.stackID := st], ports := Claim(m.ports, PortSet(st), st.stackID))
    else m
  }

  function AfterDelete(m: Mem, id: string): Mem {
    if id in m.stacks then m.(stacks := m.stacks - {id}, ports := m.ports - PortSet(m.stacks[id])) else m
  }

  function AfterReserve(m: Mem, min: int, max: int, start: nat): Mem {
    if max - min + 1 <= 0 then m
    else match Probe(m.ports, min, max - min + 1, start, 0)
      case Some(p) => m.(ports := m.ports[p := ""])
      case None => m
  }

  function AfterRelease(m: Mem, p: int): Mem {
    if p in m.ports && m.ports[p] == "" then m.(ports := m.ports - {p}) else m
  }

  function AfterUpdateStatus(m: Mem, id: string, status: string, nodeID: string, now: Time): Mem {
    if id !in m.stacks then m
    else
      var st := m.stacks[id];
      m.(stacks := m.stacks[id := st.(status := status, nodeID := if nodeID != "" then nodeID else st.nodeID, updatedAt := now)])
  }

  lemma ClaimedAgree(stacks: map<string, Stack>, ports: map<int, string>, st: Stack)
    requires Agree(stacks, ports) && st.stackID != "" && st.stackID !in stacks
    requires forall p :: p in PortSet(st) ==> p in ports && ports[p] == ""
    ensures Agree(stacks[st.stackID := st], Claim(ports, PortSet(st), st.stackID))
  {
    var stacks', ports' := stacks[st.stackID := st], Claim(ports, PortSet(st), st.stackID);
    forall id, p | id in stacks' && p in PortSet(stacks'[id]) ensures p in ports' && ports'[p] == id {
      if id != st.stackID { assert ports[p] == id; }
    }
  }

  lemma CreateIsConsistent(m: Mem, st: Stack)
    requires Consistent(m) && st.stackID != ""
    ensures Consistent(AfterCreate(m, st))
  {
    if Commits(m, st) { ClaimedAgree(m.stacks, m.ports, st); }
  }

  lemma DeletesItsRecord(m: Mem, id: string)
    ensures AfterDelete(m, id).stacks == m.stacks - {id}
  {
  }

  lemma DeleteIsConsistent(m: Mem, id: string)
    requires Consistent(m)
    ensures Consistent(AfterDelete(m, id))
  {
    var m' := AfterDelete(m, id);
    forall k, p | k in m'.stacks && p in PortSet(m'.stacks[k]) ensures p in m'.ports && m'.ports[p] == k {
      assert m.ports[p] == k;
    }
  }

  lemma SamePortsAgree(stacks: map<string, Stack>, stacks': map<string, Stack>, ports: map<int, string>)
    requires Agree(stacks, ports) && stacks'.Keys == stacks.Keys
    requires forall id :: id in stacks ==> stacks'[id].stackID == stacks[id].stackID && PortSet(stacks'[id]) == PortSet(stacks[id])
    ensures Agree(stacks', ports)
  {
  }

  lemma UpdateIsConsistent(m: Mem, id: string, status: string, nodeID: string, now: Time)
    requires Consistent(m)
    ensures Consistent(AfterUpdateStatus(m, id, status, nodeID, now))
  {
    var m' := AfterUpdateStatus(m, id, status, nodeID, now);
    forall k | k in m.stacks ensures m'.stacks[k].stackID == m.stacks[k].stackID && PortSet(m'.stacks[k]) == PortSet(m.stacks[k]) {
      assert m'.stacks[k].ports == m.stacks[k].ports;
    }
    SamePortsAgree(m.stacks, m'.stacks, m.ports);
  }

  lemma ReservationsAreConsistent(m: Mem, min: int, max: int, start: nat, p: int)
    requires Consistent(m)
    ensures Consistent(AfterReserve(m, min, max, start)) && Consistent(AfterRelease(m, p))
  {
  }

  // ---------- The modular probe ----------

  /** From any start, each port of the range is visited at one step and at one step only. */
  lemma ProbeVisitsEachPortOnce(min: int, total: int, start: nat, p: int)
    requires total > 0 && min <= p < min + total
    ensures exists i :: 0 <= i < total && PortAt(min, total, start, i) == p
    ensures forall i: nat, j: nat :: i < total && j < total && PortAt(min, total, start, i) == PortAt(min, total, start, j) ==> i == j
  {
    var k := if p - min >= start % total then p - min - start % total else p - min - start % total + total;
    ModSum(start, k, total);
    assert PortAt(min, total, start, k) == p;
    forall i: nat, j: nat | i < total && j < total && PortAt(min, total, start, i) == PortAt(min, total, start, j)
      ensures i == j
    {
      ModSum(start, i, total);
      ModSum(start, j, total);
    }
  }

  lemma {:induction false} ProbeMissesOnlyTaken(ports: map<int, string>, min: int, total: int, start: nat, i: nat)
    requires total > 0 && i <= total && Probe(ports, min, total, start, i).None?
    ensures forall j: nat :: i <= j < total ==> PortAt(min, total, start, j) in ports
    decreases total - i
  {
    if i < total { ProbeMissesOnlyTaken(ports, min, total, start, i + 1); }
  }

  /** Reservation fails exactly when every port of the range is taken. */
  lemma ProbeFailsIffFull(ports: map<int, string>, min: int, total: int, start: nat)
    requires total > 0
    ensures Probe(ports, min, total, start, 0).None? <==> forall p :: min <= p < min + total ==> p in ports
  {
    if Probe(ports, min, total, start, 0).None? {
      ProbeMissesOnlyTaken(ports, min, total, start, 0);
      forall p | min <= p < min + total ensures p in ports {
        ProbeVisitsEachPortOnce(min, total, start, p);
        var i :| 0 <= i < total && PortAt(min, total, start, i) == p;
      }
    } else {
      assert Probe(ports, min, total, start, 0).value !in ports;
    }
  }

  // ---------- Listing ----------

  function InsertByCreation(s: seq<Stack>, st: Stack): seq<Stack> {
    if s == [] then [st]
    else if st.createdAt < s[0].createdAt then [st] + s
    else [s[0]] + InsertByCreation(s[1..], st)
  }

  function SortByCreation(s: seq<Stack>): seq<Stack> {
    if s == [] then [] else InsertByCreation(SortByCreation(s[..|s| - 1]), s[|s| - 1])
  }

  ghost predicate ByCreation(s: seq<Stack>) {
    forall i, j :: 0 <= i < j < |s| ==> s[i].createdAt <= s[j].createdAt
  }

  lemma {:induction false} InsertKeepsElements(s: seq<Stack>, st: Stack)
    ensures multiset(InsertByCreation(s, st)) == multiset(s) + multiset{st}
  {
    if s == [] || st.createdAt < s[0].createdAt {
    } else {
      InsertKeepsElements(s[1..], st);
      assert s == [s[0]] + s[1..];
    }
  }

  lemma {:induction false} InsertKeepsOrder(s: seq<Stack>, st: Stack)
    requires ByCreation(s)
    ensures ByCreation(InsertByCreation(s, st))
  {
    if s == [] || st.createdAt < s[0].createdAt {
    } else {
      var rest := InsertByCreation(s[1..], st);
      InsertKeepsOrder(s[1..], st);
      InsertKeepsElements(s[1..], st);
      forall i | 0 <= i < |rest| ensures s[0].createdAt <= rest[i].createdAt {
        assert rest[i] in multiset(rest);
        if rest[i] != st {
          assert rest[i] in multiset(s[1..]);
          var j :| 0 <= j < |s[1..]| && s[1..][j] == rest[i];
        }
      }
    }
  }

  lemma {:induction false} SortIsOrdered(s: seq<Stack>)
    ensures ByCreation(SortByCreation(s))
  {
    if s != [] {
      SortIsOrdered(s[..|s| - 1]);
      InsertKeepsOrder(SortByCreation(s[..|s| - 1]), s[|s| - 1]);
    }
  }

  lemma {:induction false} SortKeepsElements(s: seq<Stack>)
    ensures multiset(SortByCreation(s)) == multiset(s)
  {
    if s != [] {
      SortKeepsElements(s[..|s| - 1]);
      InsertKeepsElements(SortByCreation(s[..|s| - 1]), s[|s| - 1]);
      assert s == s[..|s| - 1] + [s[|s| - 1]];
    }
  }

  lemma SameElements(a: seq<Stack>, b: seq<Stack>)
    requires multiset(a) == multiset(b)
    ensures |a| == |b| && forall x :: x in a <==> x in b
  {
    assert |multiset(a)| == |multiset(b)|;
    forall x ensures x in a <==> x in b {
      assert (x in a <==> x in multiset(a)) && (x in b <==> x in multiset(b));
    }
  }

  lemma SortIsSorted(s: seq<Stack>)
    ensures ByCreation(SortByCreation(s)) && multiset(SortByCreation(s)) == multiset(s)
    ensures |SortByCreation(s)| == |s| && forall x :: x in SortByCreation(s) <==> x in s
  {
    SortIsOrdered(s);
    SortKeepsElements(s);
    SameElements(SortByCreation(s), s);
  }

  /** A list has no repeats exactly when every element occurs once. */
  lemma {:induction false} DistinctOccurrences(s: seq<Stack>)
    ensures Distinct(s) <==> forall x :: x in s ==> multiset(s)[x] == 1
  {
    if s == [] {
    } else {
      var rest := s[..|s| - 1];
      var last := s[|s| - 1];
      assert s == rest + [last];
      DistinctOccurrences(rest);
      if Distinct(s) {
        assert Distinct(rest) && last !in rest;
        assert last !in multiset(rest);
      } else {
        var i, j :| 0 <= i < j < |s| && s[i] == s[j];
        if j < |rest| {
          assert rest[i] == rest[j];
          var x :| x in rest && multiset(rest)[x] != 1;
          assert x in multiset(rest) && multiset(s)[x] >= 2;
        } else {
          assert rest[i] == last;
          assert last in multiset(rest) && multiset(s)[last] >= 2;
        }
      }
    }
  }

  /** Every live stack once, oldest first. */
  ghost predicate IsListing(s: seq<Stack>, stacks: map<string, Stack>) {
    && ByCreation(s)
    && |s| == |stacks|
    && (forall i, j :: 0 <= i < j < |s| ==> s[i].stackID != s[j].stackID)
    && forall st :: st in s <==> st.stackID in stacks && stacks[st.stackID] == st
  }

  /** Names every live stack once. */
  ghost predicate Enumerates(order: seq<string>, stacks: map<string, Stack>) {
    Distinct(order) && forall id :: id in order <==> id in stacks
  }

  function InOrder(order: seq<string>, stacks: map<string, Stack>): seq<Stack>
    requires forall id :: id in order ==> id in stacks
  {
    seq(|order|, i requires 0 <= i < |order| => stacks[order[i]])
  }

  /** The listing of stacks that were read in this order. */
  ghost function Listing(order: seq<string>, stacks: map<string, Stack>): seq<Stack> {
    if Enumerates(order, stacks) then SortByCreation(InOrder(order, stacks)) else []
  }

  lemma DistinctListing(s: seq<Stack>, stacks: map<string, Stack>)
    requires Distinct(s) && |s| == |stacks|
    requires forall st :: st in s <==> st.stackID in stacks && stacks[st.stackID] == st
    ensures IsListing(SortByCreation(s), stacks)
  {
    var sorted := SortByCreation(s);
    SortIsSorted(s);
    DistinctOccurrences(s);
    DistinctOccurrences(sorted);
    forall i, j | 0 <= i < j < |sorted| ensures sorted[i].stackID != sorted[j].stackID {
      assert sorted[i] in sorted && sorted[j] in sorted && sorted[i] != sorted[j];
    }
  }

  /** In whatever order the stacks are read, the result is a listing of them. */
  lemma ListingIsListing(order: seq<string>, stacks: map<string, Stack>)
    requires Enumerates(order, stacks) && forall id :: id in stacks ==> stacks[id].stackID == id
    ensures IsListing(Listing(order, stacks), stacks)
  {
    var s := InOrder(order, stacks);
    DistinctCount(order, stacks.Keys);
    forall i, j | 0 <= i < j < |s| ensures s[i] != s[j] {
      assert s[i].stackID == order[i] && s[j].stackID == order[j];
    }
    forall st ensures st in s <==> st.stackID in stacks && stacks[st.stackID] == st {
      if st in s { var i :| 0 <= i < |s| && s[i] == st; assert order[i] in order; }
      if st.stackID in stacks && stacks[st.stackID] == st {
        var i :| 0 <= i < |order| && order[i] == st.stackID;
        assert s[i] == st;
      }
    }
    DistinctListing(s, stacks);
  }

  lemma {:induction false} InsertLast(s: seq<Stack>, st: Stack)
    requires forall i :: 0 <= i < |s| ==> s[i].createdAt <= st.createdAt
    ensures InsertByCreation(s, st) == s + [st]
  {
    if s != [] {
      InsertLast(s[1..], st);
      assert s == [s[0]] + s[1..];
    }
  }

  lemma {:induction false} SortedStays(s: seq<Stack>)
    requires ByCreation(s)
    ensures SortByCreation(s) == s
  {
    if s != [] {
      SortedStays(s[..|s| - 1]);
      InsertLast(s[..|s| - 1], s[|s| - 1]);
      assert s == s[..|s| - 1] + [s[|s| - 1]];
    }
  }

  function OrderOf(s: seq<Stack>): seq<string> {
    seq(|s|, i requires 0 <= i < |s| => s[i].stackID)
  }

  lemma OrderEnumerates(s: seq<Stack>, stacks: map<string, Stack>)
    requires IsListing(s, stacks) && forall id :: id in stacks ==> stacks[id].stackID == id
    ensures Enumerates(OrderOf(s), stacks)
  {
    forall id ensures id in OrderOf(s) <==> id in stacks {
      if id in OrderOf(s) { var i :| 0 <= i < |s| && OrderOf(s)[i] == id; assert s[i] in s; }
      if id in stacks {
        assert stacks[id] in s;
        var i :| 0 <= i < |s| && s[i] == stacks[id];
        assert OrderOf(s)[i] == id;
      }
    }
  }

  /** And every listing is the result of some order. */
  lemma ListingHasOrder(s: seq<Stack>, stacks: map<string, Stack>)
    requires IsListing(s, stacks) && forall id :: id in stacks ==> stacks[id].stackID == id
    ensures s == Listing(OrderOf(s), stacks)
  {
    OrderEnumerates(s, stacks);
    forall i | 0 <= i < |s| ensures InOrder(OrderOf(s), stacks)[i] == s[i] { assert s[i] in s; }
    assert InOrder(OrderOf(s), stacks) == s;
    SortedStays(s);
  }

  // ---------- The in-memory implementation ----------

  class InMemoryRepository {
    var stacks: map<string, Stack>
    var ports: map<int, string>
    var jobs: map<string, BatchDeleteJob>

    function Contents(): Mem
      reads this
    {
      Mem(stacks, ports, jobs)
    }

    ghost predicate Valid()
      reads this
    {
      Consistent(Contents())
    }

    constructor ()
      ensures Valid() && Contents() == Mem(map[], map[], map[])
    {
      stacks, ports, jobs := map[], map[], map[];
    }

    method Create(st: Stack) returns (err: Option<Error>)
      requires Valid() && st.stackID != ""
      modifies this
      ensures Valid() && Contents() == AfterCreate(old(Contents()), st)
      ensures err.None? <==> Commits(old(Contents()), st)
      ensures err.Some? ==> err.value == if st.stackID in old(stacks) then AlreadyExists else NoAvailableNodePort
    {
      CreateIsConsistent(Contents(), st);
      if st.stackID in stacks {
        return Some(AlreadyExists);
      }
      if |st.ports| == 0 {
        return Some(NoAvailableNodePort);
      }
      for i := 0 to |st.ports|
        invariant Contents() == old(Contents())
        invariant forall j :: 0 <= j < i ==> st.ports[j].nodePort in ports && ports[st.ports[j].nodePort] == ""
      {
        if st.ports[i].nodePort !in ports || ports[st.ports[i].nodePort] != "" {
          return Some(NoAvailableNodePort);
        }
      }
      stacks := stacks[st.stackID := st];
      for i := 0 to |st.ports|
        invariant stacks == old(stacks)[st.stackID := st] && jobs == old(jobs)
        invariant ports == Claim(old(ports), FirstPorts(st, i), st.stackID)
      {
        ClaimNextPort(old(ports), st, i);
        ports := ports[st.ports[i].nodePort := st.stackID];
      }
      assert FirstPorts(st, |st.ports|) == PortSet(st);
      return None;
    }

    method Get(id: string) returns (st: Option<Stack>)
      ensures st == if id in stacks then Some(stacks[id]) else None
    {
      return if id in stacks then Some(stacks[id]) else None;
    }

    method Delete(id: string) returns (st: Option<Stack>)
      requires Valid()
      modifies this
      ensures Valid() && Contents() == AfterDelete(old(Contents()), id)
      ensures st == if id in old(stacks) then Some(old(stacks)[id]) else None
    {
      DeleteIsConsistent(Contents(), id);
      if id !in stacks {
        return None;
      }
      var found := stacks[id];
      stacks := stacks - {id};
      for i := 0 to |found.ports|
        invariant stacks == old(stacks) - {id} && jobs == old(jobs)
        invariant ports == old(ports) - (set j | 0 <= j < i :: found.ports[j].nodePort)
      {
        ports := ports - {found.ports[i].nodePort};
      }
      return Some(found);
    }

    method ListAll() returns (result: seq<Stack>)
      requires Valid()
      ensures IsListing(result, stacks)
    {
      result := [];
      var left := stacks.Keys;
      while left != {}
        invariant left <= stacks.Keys
        invariant |result| + |left| == |stacks|
        invariant forall st :: st in result <==> st.stackID in stacks.Keys - left && stacks[st.stackID] == st
        invariant Distinct(result)
        decreases left
      {
        var id :| id in left;
        result := result + [stacks[id]];
        left := left - {id};
      }
      DistinctListing(result, stacks);
      result := SortByCreation(result);
    }

    method ReserveNodePort(min: int, max: int) returns (r: Result<int, Error>)
      requires Valid()
      modifies this
      ensures Valid()
      ensures r.Ok? <==> exists p :: min <= p <= max && p !in old(ports)
      ensures r.Ok? ==> min <= r.value <= max && r.value !in old(ports)
      ensures r.Ok? ==> exists start: nat :: Contents() == AfterReserve(old(Contents()), min, max, start)
      ensures r.Ok? ==> ports == old(ports)[r.value := ""]
      ensures r.Err? ==> r.error == NoAvailableNodePort && ports == old(ports)
      ensures stacks == old(stacks) && jobs == old(jobs)
    {
      var total := max - min + 1;
      if total <= 0 {
        return Err(NoAvailableNodePort);
      }
      var offset :| 0 <= offset < total;
      ProbeFailsIffFull(ports, min, total, offset);
      for i := 0 to total
        invariant Contents() == old(Contents())
        invariant Probe(ports, min, total, offset, 0) == Probe(ports, min, total, offset, i)
      {
        var port := min + (offset + i) % total;
        if port !in ports {
          ports := ports[port := ""];
          assert Contents() == AfterReserve(old(Contents()), min, max, offset);
          return Ok(port);
        }
      }
      return Err(NoAvailableNodePort);
    }

    method ReleaseNodePort(port: int)
      requires Valid()
      modifies this
      ensures Valid() && Contents() == AfterRelease(old(Contents()), port)
    {
      if port in ports && ports[port] == "" {
        ports := ports - {port};
      }
    }

    method UsedNodePortCount() returns (n: nat)
      ensures n == |ports|
    {
      return |ports|;
    }

    method UpdateStatus(id: string, status: string, nodeID: string, now: Time) returns (err: Option<Error>)
      requires Valid()
      modifies this
      ensures Valid() && Contents() == AfterUpdateStatus(old(Contents()), id, status, nodeID, now)
      ensures err == if id in old(stacks) then None else Some(NotFound)
    {
      UpdateIsConsistent(Contents(), id, status, nodeID, now);
      if id !in stacks {
        return Some(NotFound);
      }
      var st := stacks[id].(status := status);
      if nodeID != "" {
        st := st.(nodeID := nodeID);
      }
      stacks := stacks[id := st.(updatedAt := now)];
      return None;
    }

    method CreateBatchDeleteJob(job: BatchDeleteJob) returns (err: Option<Error>)
      modifies this`jobs
      ensures job.jobID in old(jobs) ==> err == Some(AlreadyExists) && jobs == old(jobs)
      ensures job.jobID !in old(jobs) ==> err == None && jobs == old(jobs)[job.jobID := job]
    {
      if job.jobID in jobs {
        return Some(AlreadyExists);
      }
      jobs := jobs[job.jobID := job];
      return None;
    }

    method UpdateBatchDeleteJob(job: BatchDeleteJob) returns (err: Option<Error>)
      modifies this`jobs
      ensures job.jobID !in old(jobs) ==> err == Some(NotFound) && jobs == old(jobs)
      ensures job.jobID in old(jobs) ==> err == None && jobs == old(jobs)[job.jobID := job]
    {
      if job.jobID !in jobs {
        return Some(NotFound);
      }
      jobs := jobs[job.jobID := job];
      return None;
    }

    method GetBatchDeleteJob(jobID: string) returns (job: Option<BatchDeleteJob>)
      ensures job == if jobID in jobs then Some(jobs[jobID]) else None
    {
      return if jobID in jobs then Some(jobs[jobID]) else None;
    }
  }
}
