/** The records of the stack package: values that travel between its components. */
module Types {

  datatype Option<+T> = None | Some(value: T)

  datatype Result<+T, +E> = Ok(value: T) | Err(error: E)

  /** The errors a caller can tell apart. `Failure` stands for every other one. */
  datatype Error =
    | NotFound
    | InvalidInput
    | PodSpecInvalid
    | NoAvailableNodePort
    | ClusterSaturated
    | AlreadyExists
    | PortAllocated
    | Failure(message: string)

  /** An instant, in nanoseconds. */
  type Time = int

  const STATUS_CREATING := "creating"
  const STATUS_RUNNING := "running"
  const STATUS_STOPPED := "stopped"
  const STATUS_FAILED := "failed"
  const STATUS_NODE_DELETED := "node_deleted"

  datatype PortSpec = PortSpec(containerPort: int, protocol: string)

  datatype PortMapping = PortMapping(containerPort: int, protocol: string, nodePort: int)

  datatype Stack = Stack(
    stackID: string,
    podID: string,
    namespace: string,
    nodeID: string,
    nodePublicIP: Option<string>,
    podSpec: string,
    targetPorts: seq<PortSpec>,
    ports: seq<PortMapping>,
    serviceName: string,
    status: string,
    ttlExpiresAt: Time,
    createdAt: Time,
    updatedAt: Time,
    requestedMilli: int,
    requestedBytes: int)

  const JOB_QUEUED := "queued"
  const JOB_RUNNING := "running"
  const JOB_COMPLETED := "completed"
  const JOB_FAILED := "failed"

  datatype JobError = JobError(stackID: string, error: string)

  datatype BatchDeleteJob = BatchDeleteJob(
    jobID: string,
    status: string,
    total: int,
    deleted: int,
    notFound: int,
    failed: int,
    errors: seq<JobError>,
    createdAt: Time,
    updatedAt: Time)

  /** What the validator accepts. */
  datatype ValidationResult = ValidationResult(
    sanitized: string,
    requestedMilli: int,
    requestedBytes: int,
    targetPorts: seq<PortSpec>)

  /** The node ports of a list of mappings, in order. */
  function NodePorts(ports: seq<PortMapping>): (r: seq<int>) {
    seq(|ports|, i requires 0 <= i < |ports| => ports[i].nodePort)
  }

  /** The node ports of a stack, as a set. */
  function PortSet(st: Stack): set<int> {
    set i | 0 <= i < |st.ports| :: st.ports[i].nodePort
  }

  /** Its first `n` ports. */
  function FirstPorts(st: Stack, n: nat): set<int>
    requires n <= |st.ports|
  {
    set i | 0 <= i < n :: st.ports[i].nodePort
  }

  lemma OneMorePort(st: Stack, n: nat)
    requires n < |st.ports|
    ensures FirstPorts(st, n + 1) == FirstPorts(st, n) + {st.ports[n].nodePort}
  {
  }

  function Elements(s: seq<int>): set<int> {
    set x | x in s
  }

  ghost predicate Distinct<T>(s: seq<T>) {
    forall i, j :: 0 <= i < j < |s| ==> s[i] != s[j]
  }

  /** A list without repeats has as many elements as it has distinct ones. */
  lemma {:induction false} DistinctCount<T>(s: seq<T>, elements: set<T>)
    requires Distinct(s)
    requires forall x :: x in elements <==> x in s
    ensures |elements| == |s|
  {
    if s == [] {
      assert elements == {};
    } else {
      var last := |s| - 1;
      var rest := elements - {s[last]};
      forall x ensures x in rest <==> x in s[..last] {
        if x in rest { var i :| 0 <= i < |s| && s[i] == x; assert s[..last][i] == x; }
        if x in s[..last] { var i :| 0 <= i < last && s[..last][i] == x; assert s[i] == x; }
      }
      DistinctCount(s[..last], rest);
      assert s[last] in elements;
      assert elements == rest + {s[last]};
    }
  }

  /** A map in which every key counts for a number of units. */
  ghost function Total(m: map<string, nat>): nat
    decreases |m|
  {
    if m == map[] then 0 else
    var k :| k in m;
    assert |m - {k}| < |m| by { assert m.Keys == (m - {k}).Keys + {k}; }
    m[k] + Total(m - {k})
  }

  lemma {:induction false} TotalSplit(m: map<string, nat>, k: string)
    requires k in m
    ensures Total(m) == m[k] + Total(m - {k})
    decreases |m|
  {
    var j :| j in m && Total(m) == m[j] + Total(m - {j});
    if j != k {
      assert m.Keys == (m - {j}).Keys + {j};
      assert m.Keys == (m - {k}).Keys + {k};
      TotalSplit(m - {j}, k);
      TotalSplit(m - {k}, j);
      assert m - {j} - {k} == m - {k} - {j};
    }
  }

  /** Setting one key changes the total by the difference at that key. */
  lemma TotalUpdate(m: map<string, nat>, k: string, n: nat)
    ensures Total(m[k := n]) == Total(m) - (if k in m then m[k] else 0) + n
  {
    TotalSplit(m[k := n], k);
    if k in m {
      TotalSplit(m, k);
      assert m[k := n] - {k} == m - {k};
    } else {
      assert m[k := n] - {k} == m;
    }
  }
}
