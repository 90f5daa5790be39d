/** Stacks and jobs as items of the table: maps from attribute names to typed values. */
module Items {
  import opened Types
  import opened Decimal

  /** The attributes the repository writes. */
  datatype Name =
    | StackID | IndexPK | IndexSK | PodID | Namespace | NodeID | NodePublicIP | PodSpec | TargetPorts | Ports
    | ServiceName | Status | TTLExpiresAt | CreatedAt | UpdatedAt | RequestedCPU | RequestedMemory | JobID
    | Total | Deleted | NotFound | Failed | Errors | ErrorText | ContainerPort | Protocol | NodePort
    | ItemType | Port | LockedAt

  datatype Attr = S(text: string) | N(digits: string) | L(list: seq<Attr>) | M(fields: map<Name, Attr>)

  type Item = map<Name, Attr>

  /** How times are printed and read back. */
  datatype TimeText = TimeText(format: Time -> string, parse: string -> Option<Time>) {
    ghost predicate Inverse() {
      forall t: Time :: parse(format(t)) == Some(t)
    }
  }

  function Spelling(name: Name): string {
    match name
    case StackID => "stack_id"
    case IndexPK => "gsi1pk"
    case IndexSK => "gsi1sk"
    case PodID => "pod_id"
    case Namespace => "namespace"
    case NodeID => "node_id"
    case NodePublicIP => "node_public_ip"
    case PodSpec => "pod_spec"
    case TargetPorts => "target_ports"
    case Ports => "ports"
    case ServiceName => "service_name"
    case Status => "status"
    case TTLExpiresAt => "ttl_expires_at"
    case CreatedAt => "created_at"
    case UpdatedAt => "updated_at"
    case RequestedCPU => "requested_cpu_milli"
    case RequestedMemory => "requested_memory_bytes"
    case JobID => "job_id"
    case Total => "total"
    case Deleted => "deleted"
    case NotFound => "not_found"
    case Failed => "failed"
    case Errors => "errors"
    case ErrorText => "error"
    case ContainerPort => "container_port"
    case Protocol => "protocol"
    case NodePort => "node_port"
    case ItemType => "item_type"
    case Port => "port"
    case LockedAt => "locked_at"
  }

  /** Length, first and last but one character: enough to tell the names apart. */
  function Mark(name: Name): (int, char, char) {
    match name
    case StackID => (8, 's', 'i')
    case IndexPK => (6, 'g', 'p')
    case IndexSK => (6, 'g', 's')
    case PodID => (6, 'p', 'i')
    case Namespace => (9, 'n', 'c')
    case NodeID => (7, 'n', 'i')
    case NodePublicIP => (14, 'n', 'i')
    case PodSpec => (8, 'p', 'e')
    case TargetPorts => (12, 't', 't')
    case Ports => (5, 'p', 't')
    case ServiceName => (12, 's', 'm')
    case Status => (6, 's', 'u')
    case TTLExpiresAt => (14, 't', 'a')
    case CreatedAt => (10, 'c', 'a')
    case UpdatedAt => (10, 'u', 'a')
    case RequestedCPU => (19, 'r', 'l')
    case RequestedMemory => (22, 'r', 'e')
    case JobID => (6, 'j', 'i')
    case Total => (5, 't', 'a')
    case Deleted => (7, 'd', 'e')
    case NotFound => (9, 'n', 'n')
    case Failed => (6, 'f', 'e')
    case Errors => (6, 'e', 'r')
    case ErrorText => (5, 'e', 'o')
    case ContainerPort => (14, 'c', 'r')
    case Protocol => (8, 'p', 'o')
    case NodePort => (9, 'n', 'r')
    case ItemType => (9, 'i', 'p')
    case Port => (4, 'p', 'r')
    case LockedAt => (9, 'l', 'a')
  }

  lemma MarksDiffer(a: Name, b: Name)
    requires Mark(a) == Mark(b)
    ensures a == b
  {
  }

  lemma MarkOfSpelling(name: Name)
    ensures var s := Spelling(name); |s| >= 2 && Mark(name) == (|s|, s[0], s[|s| - 2])
  {
  }

  /** No two attributes are spelled alike. */
  lemma SpellingsDiffer(a: Name, b: Name)
    requires Spelling(a) == Spelling(b)
    ensures a == b
  {
    MarkOfSpelling(a);
    MarkOfSpelling(b);
    MarksDiffer(a, b);
  }

  // ---------- Attributes ----------

  function AttrString(item: Item, key: Name): Option<string> {
    if key in item && item[key].S? then Some(item[key].text) else None
  }

  /** A missing or empty text is no text. */
  function AttrStringOptional(item: Item, key: Name): Option<string> {
    if key in item && item[key].S? && item[key].text != "" then Some(item[key].text) else None
  }

  function AttrInt(item: Item, key: Name): Option<int> {
    if key in item && item[key].N? then ParseInt(item[key].digits) else None
  }

  function AttrTime(item: Item, key: Name, clock: TimeText): Option<Time> {
    match AttrString(item, key)
    case None => None
    case Some(text) => clock.parse(text)
  }

  /** Ignores a decoding error, as most attributes do. */
  function OrElse<T>(x: Option<T>, zero: T): T {
    match x
    case Some(v) => v
    case None => zero
  }

  // ---------- Lists ----------

  function EncodeEach<T>(xs: seq<T>, entry: T -> Attr): seq<Attr> {
    seq(|xs|, i requires 0 <= i < |xs| => entry(xs[i]))
  }

  /** One entry that does not decode makes the whole list an error. */
  function DecodeEach<T>(list: seq<Attr>, entry: Attr -> Option<T>): Option<seq<T>> {
    if list == [] then Some([])
    else
      var n := |list| - 1;
      match (DecodeEach(list[..n], entry), entry(list[n]))
      case (Some(xs), Some(x)) => Some(xs + [x])
      case _ => None
  }

  /** A missing list is empty. */
  function AttrList<T>(item: Item, key: Name, entry: Attr -> Option<T>): Option<seq<T>> {
    if key !in item then Some([])
    else if item[key].L? then DecodeEach(item[key].list, entry)
    else None
  }

  method EncodeList<T>(xs: seq<T>, entry: T -> Attr) returns (r: Attr)
    ensures r == L(EncodeEach(xs, entry))
  {
    var list: seq<Attr> := [];
    for i := 0 to |xs|
      invariant list == EncodeEach(xs[..i], entry)
    {
      list := list + [entry(xs[i])];
    }
    assert xs[..|xs|] == xs;
    return L(list);
  }

  /** A missing list is empty. */
  method DecodeAttrList<T>(item: Item, key: Name, entry: Attr -> Option<T>) returns (r: Option<seq<T>>)
    ensures r == AttrList(item, key, entry)
  {
    if key !in item {
      return Some([]);
    }
    r := DecodeList(item[key], entry);
  }

  method DecodeList<T>(v: Attr, entry: Attr -> Option<T>) returns (r: Option<seq<T>>)
    ensures r == if v.L? then DecodeEach(v.list, entry) else None
  {
    if !v.L? {
      return None;
    }
    var list := v.list;
    var out: seq<T> := [];
    for i := 0 to |list|
      invariant DecodeEach(list[..i], entry) == Some(out)
    {
      assert list[..i + 1][..i] == list[..i];
      var x := entry(list[i]);
      if x.None? {
        DecodeStops(list, entry, i + 1);
        return None;
      }
      out := out + [x.value];
    }
    assert list[..|list|] == list;
    return Some(out);
  }

  lemma {:induction false} DecodeStops<T>(list: seq<Attr>, entry: Attr -> Option<T>, n: nat)
    requires n <= |list| && DecodeEach(list[..n], entry).None?
    ensures DecodeEach(list, entry).None?
  {
    if n == |list| {
      assert list[..n] == list;
    } else {
      assert list[..|list| - 1][..n] == list[..n];
      DecodeStops(list[..|list| - 1], entry, n);
    }
  }

  lemma {:induction false} ListRoundTrip<T>(xs: seq<T>, enc: T -> Attr, dec: Attr -> Option<T>)
    requires forall i :: 0 <= i < |xs| ==> dec(enc(xs[i])) == Some(xs[i])
    ensures DecodeEach(EncodeEach(xs, enc), dec) == Some(xs)
  {
    if xs != [] {
      var n := |xs| - 1;
      ListRoundTrip(xs[..n], enc, dec);
      assert EncodeEach(xs, enc)[..n] == EncodeEach(xs[..n], enc);
      assert xs[..n] + [xs[n]] == xs;
    }
  }

  // ---------- Entries ----------

  function SpecToAttr(p: PortSpec): Attr {
    M(map[Name.ContainerPort := N(Itoa(p.containerPort)), Name.Protocol := S(p.protocol)])
  }

  function SpecFromAttr(a: Attr): Option<PortSpec> {
    if !a.M? then None
    else match AttrInt(a.fields, Name.ContainerPort)
      case None => None
      case Some(port) => Some(PortSpec(port, OrElse(AttrString(a.fields, Name.Protocol), "")))
  }

  function MappingToAttr(p: PortMapping): Attr {
    M(map[Name.ContainerPort := N(Itoa(p.containerPort)), Name.Protocol := S(p.protocol), Name.NodePort := N(Itoa(p.nodePort))])
  }

  function MappingFromAttr(a: Attr): Option<PortMapping> {
    if !a.M? then None
    else match (AttrInt(a.fields, Name.ContainerPort), AttrInt(a.fields, Name.NodePort))
      case (Some(port), Some(nodePort)) => Some(PortMapping(port, OrElse(AttrString(a.fields, Name.Protocol), ""), nodePort))
      case _ => None
  }

  function ErrorToAttr(e: JobError): Attr {
    M(map[Name.StackID := S(e.stackID), Name.ErrorText := S(e.error)])
  }

  function ErrorFromAttr(a: Attr): Option<JobError> {
    if !a.M? then None
    else Some(JobError(OrElse(AttrString(a.fields, Name.StackID), ""), OrElse(AttrString(a.fields, Name.ErrorText), "")))
  }

  lemma SpecRoundTrip(p: PortSpec)
    requires IsInt64(p.containerPort)
    ensures SpecFromAttr(SpecToAttr(p)) == Some(p)
  {
    NumberOfItoa(p.containerPort);
  }

  lemma MappingRoundTrip(p: PortMapping)
    requires IsInt64(p.containerPort) && IsInt64(p.nodePort)
    ensures MappingFromAttr(MappingToAttr(p)) == Some(p)
  {
    NumberOfItoa(p.containerPort);
    NumberOfItoa(p.nodePort);
  }

  // ---------- Stacks ----------

  const ALL_STACKS := "STACKS"

  /** Every stack item carries the key of the index over all stacks. */
  function StackItem(st: Stack, targetPorts: Attr, ports: Attr, clock: TimeText): Item {
    var item: Item := map[
      Name.StackID := S(st.stackID),
      Name.IndexPK := S(ALL_STACKS),
      Name.IndexSK := S(clock.format(st.createdAt)),
      Name.PodID := S(st.podID),
      Name.Namespace := S(st.namespace),
      Name.NodeID := S(st.nodeID),
      Name.PodSpec := S(st.podSpec),
      Name.TargetPorts := targetPorts,
      Name.Ports := ports,
      Name.ServiceName := S(st.serviceName),
      Name.Status := S(st.status),
      Name.TTLExpiresAt := S(clock.format(st.ttlExpiresAt)),
      Name.CreatedAt := S(clock.format(st.createdAt)),
      Name.UpdatedAt := S(clock.format(st.updatedAt)),
      Name.RequestedCPU := N(Itoa(st.requestedMilli)),
      Name.RequestedMemory := N(Itoa(st.requestedBytes))];
    if st.nodePublicIP.Some? then item[Name.NodePublicIP := S(st.nodePublicIP.value)] else item
  }

  function StackToItem(st: Stack, clock: TimeText): Item {
    StackItem(st, L(EncodeEach(st.targetPorts, SpecToAttr)), L(EncodeEach(st.ports, MappingToAttr)), clock)
  }

  /** Only the ID and the times must decode; any other attribute falls back to a zero value. */
  function StackOfItem(item: Item, targetPorts: seq<PortSpec>, ports: seq<PortMapping>, clock: TimeText): Option<Stack> {
    match (AttrString(item, Name.StackID), AttrTime(item, Name.TTLExpiresAt, clock),
           AttrTime(item, Name.CreatedAt, clock), AttrTime(item, Name.UpdatedAt, clock))
    case (Some(stackID), Some(ttl), Some(created), Some(updated)) =>
      Some(Stack(
        stackID,
        OrElse(AttrString(item, Name.PodID), ""),
        OrElse(AttrString(item, Name.Namespace), ""),
        OrElse(AttrString(item, Name.NodeID), ""),
        AttrStringOptional(item, Name.NodePublicIP),
        OrElse(AttrString(item, Name.PodSpec), ""),
        targetPorts,
        ports,
        OrElse(AttrString(item, Name.ServiceName), ""),
        OrElse(AttrString(item, Name.Status), ""),
        ttl, created, updated,
        OrElse(AttrInt(item, Name.RequestedCPU), 0),
        OrElse(AttrInt(item, Name.RequestedMemory), 0)))
    case _ => None
  }

  function StackFromItem(item: Item, clock: TimeText): Option<Stack> {
    StackOfItem(item, OrElse(AttrList(item, Name.TargetPorts, SpecFromAttr), []), OrElse(AttrList(item, Name.Ports, MappingFromAttr), []), clock)
  }

  /** The integers of a stack have the width the program gives them. */
  ghost predicate StackFits(st: Stack) {
    && IsInt64(st.requestedMilli) && IsInt64(st.requestedBytes)
    && (forall i :: 0 <= i < |st.targetPorts| ==> IsInt64(st.targetPorts[i].containerPort))
    && (forall i :: 0 <= i < |st.ports| ==> IsInt64(st.ports[i].containerPort) && IsInt64(st.ports[i].nodePort))
  }

  predicate Has(item: Item, key: Name, v: Attr) {
    key in item && item[key] == v
  }

  predicate HasNumber(item: Item, key: Name, n: int) {
    AttrInt(item, key) == Some(n)
  }

  predicate HasTime(item: Item, key: Name, t: Time, clock: TimeText) {
    AttrTime(item, key, clock) == Some(t)
  }

  lemma NumberAttr(item: Item, key: Name, n: int)
    requires Has(item, key, N(Itoa(n))) && IsInt64(n)
    ensures HasNumber(item, key, n)
  {
    NumberOfItoa(n);
  }

  lemma StackItemTexts(st: Stack, clock: TimeText)
    ensures var item := StackToItem(st, clock);
            && Has(item, Name.StackID, S(st.stackID)) && Has(item, Name.PodID, S(st.podID))
            && Has(item, Name.Namespace, S(st.namespace)) && Has(item, Name.NodeID, S(st.nodeID))
            && Has(item, Name.PodSpec, S(st.podSpec)) && Has(item, Name.ServiceName, S(st.serviceName))
            && Has(item, Name.Status, S(st.status)) && Has(item, Name.IndexPK, S(ALL_STACKS))
            && AttrStringOptional(item, Name.NodePublicIP) == if st.nodePublicIP == Some("") then None else st.nodePublicIP
  {
  }

  lemma StackItemOthers(st: Stack, clock: TimeText)
    ensures var item := StackToItem(st, clock);
            && Has(item, Name.TTLExpiresAt, S(clock.format(st.ttlExpiresAt)))
            && Has(item, Name.CreatedAt, S(clock.format(st.createdAt)))
            && Has(item, Name.UpdatedAt, S(clock.format(st.updatedAt)))
            && Has(item, Name.RequestedCPU, N(Itoa(st.requestedMilli)))
            && Has(item, Name.RequestedMemory, N(Itoa(st.requestedBytes)))
            && Has(item, Name.TargetPorts, L(EncodeEach(st.targetPorts, SpecToAttr)))
            && Has(item, Name.Ports, L(EncodeEach(st.ports, MappingToAttr)))
  {
  }

  lemma PortListsRoundTrip(st: Stack)
    requires StackFits(st)
    ensures DecodeEach(EncodeEach(st.targetPorts, SpecToAttr), SpecFromAttr) == Some(st.targetPorts)
    ensures DecodeEach(EncodeEach(st.ports, MappingToAttr), MappingFromAttr) == Some(st.ports)
  {
    forall i | 0 <= i < |st.targetPorts| ensures SpecFromAttr(SpecToAttr(st.targetPorts[i])) == Some(st.targetPorts[i]) {
      SpecRoundTrip(st.targetPorts[i]);
    }
    forall i | 0 <= i < |st.ports| ensures MappingFromAttr(MappingToAttr(st.ports[i])) == Some(st.ports[i]) {
      MappingRoundTrip(st.ports[i]);
    }
    ListRoundTrip(st.targetPorts, SpecToAttr, SpecFromAttr);
    ListRoundTrip(st.ports, MappingToAttr, MappingFromAttr);
  }

  lemma DecodeFromAttributes(item: Item, st: Stack, clock: TimeText)
    requires Has(item, Name.StackID, S(st.stackID)) && Has(item, Name.PodID, S(st.podID))
    requires Has(item, Name.Namespace, S(st.namespace)) && Has(item, Name.NodeID, S(st.nodeID))
    requires Has(item, Name.PodSpec, S(st.podSpec)) && Has(item, Name.ServiceName, S(st.serviceName)) && Has(item, Name.Status, S(st.status))
    requires HasTime(item, Name.TTLExpiresAt, st.ttlExpiresAt, clock) && HasTime(item, Name.CreatedAt, st.createdAt, clock)
    requires HasTime(item, Name.UpdatedAt, st.updatedAt, clock)
    requires HasNumber(item, Name.RequestedCPU, st.requestedMilli) && HasNumber(item, Name.RequestedMemory, st.requestedBytes)
    requires AttrList(item, Name.TargetPorts, SpecFromAttr) == Some(st.targetPorts)
    requires AttrList(item, Name.Ports, MappingFromAttr) == Some(st.ports)
    ensures StackFromItem(item, clock) == Some(st.(nodePublicIP := AttrStringOptional(item, Name.NodePublicIP)))
  {
  }

  /** Decoding an encoded stack gives it back, but for a public address that is present and empty. */
  lemma StackRoundTrip(st: Stack, clock: TimeText)
    requires clock.Inverse() && StackFits(st)
    ensures StackFromItem(StackToItem(st, clock), clock) ==
              Some(if st.nodePublicIP == Some("") then st.(nodePublicIP := None) else st)
  {
    StackItemTexts(st, clock);
    StackItemOthers(st, clock);
    PortListsRoundTrip(st);
    NumberAttr(StackToItem(st, clock), Name.RequestedCPU, st.requestedMilli);
    NumberAttr(StackToItem(st, clock), Name.RequestedMemory, st.requestedBytes);
    DecodeFromAttributes(StackToItem(st, clock), st, clock);
  }

  /** The three attributes a status update sets. */
  function WithStatus(item: Item, status: string, nodeID: string, now: string): Item {
    item[Name.Status := S(status)][Name.NodeID := S(nodeID)][Name.UpdatedAt := S(now)]
  }

  /** The other attributes are as they were. */
  predicate SameBut(item: Item, item': Item) {
    forall key :: key != Name.Status && key != Name.NodeID && key != Name.UpdatedAt ==>
      (key in item <==> key in item') && (key in item ==> item'[key] == item[key])
  }

  lemma WithStatusSets(item: Item, status: string, nodeID: string, now: string)
    ensures var item' := WithStatus(item, status, nodeID, now);
            && SameBut(item, item') && Has(item', Name.Status, S(status)) && Has(item', Name.NodeID, S(nodeID))
            && Has(item', Name.UpdatedAt, S(now))
  {
  }

  lemma SameAttr(item: Item, item': Item, key: Name, clock: TimeText)
    requires SameBut(item, item') && key != Name.Status && key != Name.NodeID && key != Name.UpdatedAt
    ensures AttrString(item', key) == AttrString(item, key) && AttrStringOptional(item', key) == AttrStringOptional(item, key)
    ensures AttrInt(item', key) == AttrInt(item, key) && AttrTime(item', key, clock) == AttrTime(item, key, clock)
    ensures AttrList(item', key, SpecFromAttr) == AttrList(item, key, SpecFromAttr)
    ensures AttrList(item', key, MappingFromAttr) == AttrList(item, key, MappingFromAttr)
  {
  }

  /** Two items that differ in status, node and update time decode to stacks that do. */
  lemma DecodesButStatus(item: Item, item': Item, status: string, nodeID: string, now: Time, clock: TimeText)
    requires StackFromItem(item, clock).Some? && HasTime(item', Name.UpdatedAt, now, clock)
    requires AttrString(item', Name.Status) == Some(status) && AttrString(item', Name.NodeID) == Some(nodeID)
    requires AttrString(item', Name.StackID) == AttrString(item, Name.StackID) && AttrString(item', Name.PodID) == AttrString(item, Name.PodID)
    requires AttrString(item', Name.Namespace) == AttrString(item, Name.Namespace)
    requires AttrString(item', Name.PodSpec) == AttrString(item, Name.PodSpec)
    requires AttrString(item', Name.ServiceName) == AttrString(item, Name.ServiceName)
    requires AttrStringOptional(item', Name.NodePublicIP) == AttrStringOptional(item, Name.NodePublicIP)
    requires AttrTime(item', Name.TTLExpiresAt, clock) == AttrTime(item, Name.TTLExpiresAt, clock)
    requires AttrTime(item', Name.CreatedAt, clock) == AttrTime(item, Name.CreatedAt, clock)
    requires AttrInt(item', Name.RequestedCPU) == AttrInt(item, Name.RequestedCPU)
    requires AttrInt(item', Name.RequestedMemory) == AttrInt(item, Name.RequestedMemory)
    requires AttrList(item', Name.TargetPorts, SpecFromAttr) == AttrList(item, Name.TargetPorts, SpecFromAttr)
    requires AttrList(item', Name.Ports, MappingFromAttr) == AttrList(item, Name.Ports, MappingFromAttr)
    ensures StackFromItem(item', clock) ==
              Some(StackFromItem(item, clock).value.(status := status, nodeID := nodeID, updatedAt := now))
  {
  }

  lemma SetStatusDecodes(item: Item, item': Item, status: string, nodeID: string, now: Time, clock: TimeText)
    requires SameBut(item, item') && StackFromItem(item, clock).Some? && HasTime(item', Name.UpdatedAt, now, clock)
    requires AttrString(item', Name.Status) == Some(status) && AttrString(item', Name.NodeID) == Some(nodeID)
    ensures StackFromItem(item', clock) ==
              Some(StackFromItem(item, clock).value.(status := status, nodeID := nodeID, updatedAt := now))
  {
    SameAttr(item, item', Name.StackID, clock);
    SameAttr(item, item', Name.PodID, clock);
    SameAttr(item, item', Name.Namespace, clock);
    SameAttr(item, item', Name.PodSpec, clock);
    SameAttr(item, item', Name.ServiceName, clock);
    SameAttr(item, item', Name.NodePublicIP, clock);
    SameAttr(item, item', Name.TTLExpiresAt, clock);
    SameAttr(item, item', Name.CreatedAt, clock);
    SameAttr(item, item', Name.RequestedCPU, clock);
    SameAttr(item, item', Name.RequestedMemory, clock);
    SameAttr(item, item', Name.TargetPorts, clock);
    SameAttr(item, item', Name.Ports, clock);
    DecodesButStatus(item, item', status, nodeID, now, clock);
  }

  /** Updating an item that decodes is updating the stack it decodes to. */
  lemma StatusCommutes(item: Item, status: string, nodeID: string, now: Time, clock: TimeText)
    requires clock.Inverse() && StackFromItem(item, clock).Some?
    ensures StackFromItem(WithStatus(item, status, nodeID, clock.format(now)), clock) ==
              Some(StackFromItem(item, clock).value.(status := status, nodeID := nodeID, updatedAt := now))
  {
    WithStatusSets(item, status, nodeID, clock.format(now));
    SetStatusDecodes(item, WithStatus(item, status, nodeID, clock.format(now)), status, nodeID, now, clock);
  }

  // ---------- Jobs ----------

  function JobItem(job: BatchDeleteJob, errors: Attr, clock: TimeText): Item {
    var item: Item := map[
      Name.JobID := S(job.jobID),
      Name.Status := S(job.status),
      Name.Total := N(Itoa(job.total)),
      Name.Deleted := N(Itoa(job.deleted)),
      Name.NotFound := N(Itoa(job.notFound)),
      Name.Failed := N(Itoa(job.failed)),
      Name.CreatedAt := S(clock.format(job.createdAt)),
      Name.UpdatedAt := S(clock.format(job.updatedAt))];
    if job.errors != [] then item[Name.Errors := errors] else item
  }

  function JobToItem(job: BatchDeleteJob, clock: TimeText): Item {
    JobItem(job, L(EncodeEach(job.errors, ErrorToAttr)), clock)
  }

  function JobOfItem(item: Item, errors: seq<JobError>, clock: TimeText): Option<BatchDeleteJob> {
    match (AttrString(item, Name.JobID), AttrTime(item, Name.CreatedAt, clock), AttrTime(item, Name.UpdatedAt, clock))
    case (Some(jobID), Some(created), Some(updated)) =>
      Some(BatchDeleteJob(
        jobID,
        OrElse(AttrString(item, Name.Status), ""),
        OrElse(AttrInt(item, Name.Total), 0),
        OrElse(AttrInt(item, Name.Deleted), 0),
        OrElse(AttrInt(item, Name.NotFound), 0),
        OrElse(AttrInt(item, Name.Failed), 0),
        errors,
        created, updated))
    case _ => None
  }

  function JobFromItem(item: Item, clock: TimeText): Option<BatchDeleteJob> {
    JobOfItem(item, OrElse(AttrList(item, Name.Errors, ErrorFromAttr), []), clock)
  }

  predicate JobFits(job: BatchDeleteJob) {
    IsInt64(job.total) && IsInt64(job.deleted) && IsInt64(job.notFound) && IsInt64(job.failed)
  }

  lemma JobItemAttributes(job: BatchDeleteJob, clock: TimeText)
    ensures var item := JobToItem(job, clock);
            && Has(item, Name.JobID, S(job.jobID)) && Has(item, Name.Status, S(job.status))
            && Has(item, Name.Total, N(Itoa(job.total))) && Has(item, Name.Deleted, N(Itoa(job.deleted)))
            && Has(item, Name.NotFound, N(Itoa(job.notFound))) && Has(item, Name.Failed, N(Itoa(job.failed)))
            && Has(item, Name.CreatedAt, S(clock.format(job.createdAt))) && Has(item, Name.UpdatedAt, S(clock.format(job.updatedAt)))
            && Name.IndexPK !in item
            && (if job.errors == [] then Name.Errors !in item else Has(item, Name.Errors, L(EncodeEach(job.errors, ErrorToAttr))))
  {
  }

  lemma DecodeJobFromAttributes(item: Item, job: BatchDeleteJob, clock: TimeText)
    requires Has(item, Name.JobID, S(job.jobID)) && Has(item, Name.Status, S(job.status))
    requires HasNumber(item, Name.Total, job.total) && HasNumber(item, Name.Deleted, job.deleted)
    requires HasNumber(item, Name.NotFound, job.notFound) && HasNumber(item, Name.Failed, job.failed)
    requires HasTime(item, Name.CreatedAt, job.createdAt, clock) && HasTime(item, Name.UpdatedAt, job.updatedAt, clock)
    requires AttrList(item, Name.Errors, ErrorFromAttr) == Some(job.errors)
    ensures JobFromItem(item, clock) == Some(job)
  {
  }

  lemma JobItemNumbers(job: BatchDeleteJob, clock: TimeText)
    requires JobFits(job)
    ensures var item := JobToItem(job, clock);
            && HasNumber(item, Name.Total, job.total) && HasNumber(item, Name.Deleted, job.deleted)
            && HasNumber(item, Name.NotFound, job.notFound) && HasNumber(item, Name.Failed, job.failed)
  {
    var item := JobToItem(job, clock);
    JobItemAttributes(job, clock);
    NumberAttr(item, Name.Total, job.total);
    NumberAttr(item, Name.Deleted, job.deleted);
    NumberAttr(item, Name.NotFound, job.notFound);
    NumberAttr(item, Name.Failed, job.failed);
  }

  lemma JobErrorsDecode(job: BatchDeleteJob, item: Item)
    requires if job.errors == [] then Name.Errors !in item else Has(item, Name.Errors, L(EncodeEach(job.errors, ErrorToAttr)))
    ensures AttrList(item, Name.Errors, ErrorFromAttr) == Some(job.errors)
  {
    forall i | 0 <= i < |job.errors| ensures ErrorFromAttr(ErrorToAttr(job.errors[i])) == Some(job.errors[i]) {}
    ListRoundTrip(job.errors, ErrorToAttr, ErrorFromAttr);
  }

  /** Decoding an encoded job gives it back. */
  lemma JobRoundTrip(job: BatchDeleteJob, clock: TimeText)
    requires clock.Inverse() && JobFits(job)
    ensures JobFromItem(JobToItem(job, clock), clock) == Some(job)
  {
    JobItemAttributes(job, clock);
    JobItemNumbers(job, clock);
    JobErrorsDecode(job, JobToItem(job, clock));
    DecodeJobFromAttributes(JobToItem(job, clock), job, clock);
  }
}
