/** Validation of a parsed pod: which pods are accepted, and what is made of them. */
module Validator {
  import opened Types
  import opened Text
  import opened Decimal

  // ---------- Pods ----------

  datatype ContainerPort = ContainerPort(containerPort: int, hostPort: int, hostIP: string, protocol: string)

  /** Quantities as milli-CPUs and bytes. */
  datatype Amounts = Amounts(cpu: Option<int>, memory: Option<int>)

  datatype Resources = Resources(requests: Amounts, limits: Amounts)

  datatype Security = Security(privileged: bool, allowEscalation: bool, seccomp: string)

  datatype Container = Container(
    name: string, image: string, ports: seq<ContainerPort>, resources: Resources, security: Option<Security>)

  /** `sources` says of each projected source whether it is a service account token. */
  datatype Volume = Volume(hostPath: bool, sources: seq<bool>)

  datatype Pod = Pod(
    kind: string,
    hostNetwork: bool, hostPID: bool, hostIPC: bool,
    seccomp: Option<string>,
    serviceAccount: string, deprecatedServiceAccount: string,
    nodeName: string, runtimeClassName: Option<string>,
    ephemeralContainers: nat,
    volumes: seq<Volume>,
    initContainers: seq<Container>,
    containers: seq<Container>,
    restartPolicy: string,
    automountToken: Option<bool>,
    enableServiceLinks: Option<bool>)

  datatype Accepted = Accepted(pod: Pod, requestedMilli: int, requestedBytes: int, targetPorts: seq<PortSpec>)

  const MAX_TARGET_PORTS := 24
  const RUNTIME_DEFAULT := "RuntimeDefault"
  const HARDENED := Security(false, false, RUNTIME_DEFAULT)

  // ---------- Ports ----------

  function NormalizeProtocol(protocol: string): Result<string, Error> {
    var upper := Upper(TrimSpace(protocol));
    if upper == "" || (upper != "TCP" && upper != "UDP") then Err(InvalidInput) else Ok(upper)
  }

  function PortKey(port: int, protocol: string): string {
    Itoa(port) + "/" + Upper(protocol)
  }

  predicate IsProtocol(protocol: string) {
    protocol == "TCP" || protocol == "UDP"
  }

  lemma KeyEndsInProtocol(port: int, protocol: string)
    requires IsProtocol(protocol)
    ensures var key := PortKey(port, protocol);
            |key| >= 4 && key[|key| - 3..] == protocol && key[..|key| - 4] == Itoa(port)
  {
    assert Upper(protocol) == protocol;
  }

  /** On normalised pairs the string keys tell pairs apart. */
  lemma PortKeyInjective(p: int, a: string, q: int, b: string)
    requires IsProtocol(a) && IsProtocol(b) && PortKey(p, a) == PortKey(q, b)
    ensures p == q && a == b
  {
    KeyEndsInProtocol(p, a);
    KeyEndsInProtocol(q, b);
    ItoaInjective(p, q);
  }

  predicate PortInRange(port: int) {
    1 <= port <= 65535
  }

  predicate TargetOk(target: PortSpec) {
    PortInRange(target.containerPort) && NormalizeProtocol(target.protocol).Ok?
  }

  function Normalized(target: PortSpec): PortSpec {
    PortSpec(target.containerPort, Upper(TrimSpace(target.protocol)))
  }

  /** One to 24 targets, in range and of a known protocol, no two the same after normalising. */
  ghost predicate TargetsOk(targets: seq<PortSpec>) {
    && 1 <= |targets| <= MAX_TARGET_PORTS
    && (forall i :: 0 <= i < |targets| ==> TargetOk(targets[i]))
    && (forall i, j :: 0 <= i < j < |targets| ==> Normalized(targets[i]) != Normalized(targets[j]))
  }

  function TargetKey(t: PortSpec): string {
    PortKey(t.containerPort, t.protocol)
  }

  function KeysOf(targets: seq<PortSpec>): set<string> {
    set t | t in targets :: TargetKey(t)
  }

  /** The normalised targets so far, all distinct. */
  ghost predicate NormalizedSoFar(targets: seq<PortSpec>, out: seq<PortSpec>) {
    && |out| <= |targets|
    && (forall i :: 0 <= i < |out| ==> TargetOk(targets[i]) && out[i] == Normalized(targets[i]))
    && Distinct(out)
  }

  lemma KeyTells(targets: seq<PortSpec>, next: PortSpec)
    requires IsProtocol(next.protocol) && forall t :: t in targets ==> IsProtocol(t.protocol)
    ensures TargetKey(next) in KeysOf(targets) <==> next in targets
  {
    if TargetKey(next) in KeysOf(targets) {
      var t :| t in targets && TargetKey(t) == TargetKey(next);
      PortKeyInjective(t.containerPort, t.protocol, next.containerPort, next.protocol);
    }
  }

  lemma SeenTells(targets: seq<PortSpec>, out: seq<PortSpec>, next: PortSpec)
    requires NormalizedSoFar(targets, out) && IsProtocol(next.protocol)
    ensures TargetKey(next) in KeysOf(out) <==> next in out
  {
    forall t | t in out ensures IsProtocol(t.protocol) {
      var i :| 0 <= i < |out| && out[i] == t;
      assert TargetOk(targets[i]);
    }
    KeyTells(out, next);
  }

  method NormalizeTargets(targets: seq<PortSpec>) returns (r: Result<seq<PortSpec>, Error>)
    ensures r.Ok? <==> TargetsOk(targets)
    ensures r.Ok? ==> NormalizedSoFar(targets, r.value) && |r.value| == |targets|
    ensures r.Err? ==> r.error == InvalidInput
  {
    if |targets| == 0 || |targets| > MAX_TARGET_PORTS {
      return Err(InvalidInput);
    }
    var out: seq<PortSpec> := [];
    var seen: set<string> := {};
    for i := 0 to |targets|
      invariant |out| == i && NormalizedSoFar(targets, out) && seen == KeysOf(out)
    {
      var protocol := NormalizeProtocol(targets[i].protocol);
      if !PortInRange(targets[i].containerPort) || protocol.Err? {
        return Err(InvalidInput);
      }
      var next := PortSpec(targets[i].containerPort, protocol.value);
      var key := TargetKey(next);
      SeenTells(targets, out, next);
      if key in seen {
        var k :| 0 <= k < |out| && out[k] == next;
        assert Normalized(targets[k]) == Normalized(targets[i]);
        return Err(InvalidInput);
      }
      seen := seen + {key};
      out := out + [next];
    }
    return Ok(out);
  }

  // ---------- Resources ----------

  datatype Dimension = CPU | Memory

  function OrZero(x: Option<int>): int {
    if x.Some? then x.value else 0
  }

  function Amount(a: Amounts, d: Dimension): int {
    OrZero(if d.CPU? then a.cpu else a.memory)
  }

  function Max(a: int, b: int): int {
    if a > b then a else b
  }

  /** What a container needs: the larger of request and limit. */
  function Need(c: Container, d: Dimension): int {
    Max(Amount(c.resources.requests, d), Amount(c.resources.limits, d))
  }

  function EqualResources(cpu: int, memory: int): Resources {
    Resources(Amounts(Some(cpu), Some(memory)), Amounts(Some(cpu), Some(memory)))
  }

  function SumOf(cs: seq<Container>, d: Dimension): int {
    if cs == [] then 0 else SumOf(cs[..|cs| - 1], d) + Need(cs[|cs| - 1], d)
  }

  function MaxOf(cs: seq<Container>, d: Dimension): int {
    if cs == [] then 0 else Max(MaxOf(cs[..|cs| - 1], d), Need(cs[|cs| - 1], d))
  }

  /** What a pod needs: its containers together, or its largest init container alone. */
  function PodNeed(pod: Pod, d: Dimension): int {
    Max(SumOf(pod.containers, d), MaxOf(pod.initContainers, d))
  }

  /** How far a number is from fitting in 64 bits. */
  function Excess(n: int): nat {
    if n > MAX_INT64 then n - MAX_INT64 else if n < MIN_INT64 then MIN_INT64 - n else 0
  }

  /** A 64-bit sum wraps around. */
  function Wrap(n: int): int
    decreases Excess(n)
  {
    if n > MAX_INT64 then Wrap(n - 0x1_0000_0000_0000_0000)
    else if n < MIN_INT64 then Wrap(n + 0x1_0000_0000_0000_0000)
    else n
  }

  /** What the program computes for it. */
  function ComputedNeed(pod: Pod, d: Dimension): int {
    Max(Wrap(SumOf(pod.containers, d)), MaxOf(pod.initContainers, d))
  }

  lemma {:induction false} WrapAgain(a: int, b: int)
    ensures Wrap(Wrap(a) + b) == Wrap(a + b)
    decreases Excess(a)
  {
    if a > MAX_INT64 {
      WrapAgain(a - 0x1_0000_0000_0000_0000, b);
    } else if a < MIN_INT64 {
      WrapAgain(a + 0x1_0000_0000_0000_0000, b);
    }
  }

  lemma {:induction false} WrapFits(n: int)
    ensures IsInt64(Wrap(n)) && (Wrap(n) == n <==> IsInt64(n))
    decreases Excess(n)
  {
    if n > MAX_INT64 {
      WrapFits(n - 0x1_0000_0000_0000_0000);
    } else if n < MIN_INT64 {
      WrapFits(n + 0x1_0000_0000_0000_0000);
    }
  }

  // ---------- Containers ----------

  predicate BasicsOk(c: Container) {
    TrimSpace(c.name) != "" && TrimSpace(c.image) != "" && c.security.None?
  }

  predicate ResourcesOk(c: Container) {
    Need(c, CPU) > 0 && Need(c, Memory) > 0
  }

  predicate ContainerPortOk(p: ContainerPort) {
    && PortInRange(p.containerPort)
    && p.hostPort == 0 && p.hostIP == ""
    && (p.protocol == "" || p.protocol == "TCP" || p.protocol == "UDP")
  }

  ghost predicate PortsOk(ports: seq<ContainerPort>) {
    forall i :: 0 <= i < |ports| ==> ContainerPortOk(ports[i])
  }

  ghost predicate InitContainerOk(c: Container) {
    BasicsOk(c) && c.ports == [] && ResourcesOk(c)
  }

  ghost predicate ContainerOk(c: Container) {
    BasicsOk(c) && ResourcesOk(c) && PortsOk(c.ports)
  }

  /** A port without a protocol is TCP. */
  function ExposedPort(p: ContainerPort): PortSpec {
    PortSpec(p.containerPort, if p.protocol == "" then "TCP" else p.protocol)
  }

  function AllPorts(cs: seq<Container>): seq<ContainerPort> {
    if cs == [] then [] else AllPorts(cs[..|cs| - 1]) + cs[|cs| - 1].ports
  }

  function Exposed(ports: seq<ContainerPort>): seq<PortSpec> {
    seq(|ports|, i requires 0 <= i < |ports| => ExposedPort(ports[i]))
  }

  /** The container once its resources are made equal. */
  function Equalized(c: Container): Container {
    c.(resources := EqualResources(Need(c, CPU), Need(c, Memory)))
  }

  /** The first `i` containers equalised, the others untouched. */
  ghost predicate EqualizedSoFar(cs: seq<Container>, out: seq<Container>, i: nat) {
    && |out| == |cs| && i <= |cs|
    && (forall k :: 0 <= k < i ==> out[k] == Equalized(cs[k]))
    && (forall k :: i <= k < |cs| ==> out[k] == cs[k])
  }

  method ValidateInitContainers(cs: seq<Container>) returns (ok: bool, out: seq<Container>, maxMilli: int, maxBytes: int)
    ensures ok <==> forall i :: 0 <= i < |cs| ==> InitContainerOk(cs[i])
    ensures ok ==> EqualizedSoFar(cs, out, |cs|) && maxMilli == MaxOf(cs, CPU) && maxBytes == MaxOf(cs, Memory)
  {
    out, maxMilli, maxBytes := cs, 0, 0;
    for i := 0 to |cs|
      invariant EqualizedSoFar(cs, out, i) && maxMilli == MaxOf(cs[..i], CPU) && maxBytes == MaxOf(cs[..i], Memory)
      invariant forall k :: 0 <= k < i ==> InitContainerOk(cs[k])
    {
      var c := out[i];
      if !BasicsOk(c) || c.ports != [] || !ResourcesOk(c) {
        assert !InitContainerOk(cs[i]);
        return false, out, 0, 0;
      }
      out := out[i := c.(resources := EqualResources(Need(c, CPU), Need(c, Memory)))];
      if Need(c, CPU) > maxMilli {
        maxMilli := Need(c, CPU);
      }
      if Need(c, Memory) > maxBytes {
        maxBytes := Need(c, Memory);
      }
      assert cs[..i + 1][..i] == cs[..i];
    }
    assert cs[..|cs|] == cs;
    ok := true;
  }

  lemma KeysOfBoth(a: seq<ContainerPort>, b: seq<ContainerPort>)
    ensures KeysOf(Exposed(a + b)) == KeysOf(Exposed(a)) + KeysOf(Exposed(b))
  {
    assert Exposed(a + b) == Exposed(a) + Exposed(b);
  }

  lemma SeenStarts(seen: set<string>, ports: seq<ContainerPort>)
    ensures seen == seen + KeysOf(Exposed(ports[..0]))
    ensures KeysOf(Exposed(ports[..|ports|])) == KeysOf(Exposed(ports))
  {
    assert ports[..|ports|] == ports;
  }

  /** The keys seen, with those of one more port. */
  lemma SeenGrows(seen: set<string>, ports: seq<ContainerPort>, i: nat, keys: set<string>)
    requires i < |ports| && keys == seen + KeysOf(Exposed(ports[..i]))
    ensures keys + {TargetKey(ExposedPort(ports[i]))} == seen + KeysOf(Exposed(ports[..i + 1]))
  {
    assert Exposed(ports[..i + 1]) == Exposed(ports[..i]) + [ExposedPort(ports[i])];
  }

  lemma PortsNext(ports: seq<ContainerPort>, i: nat)
    requires i < |ports| && PortsOk(ports[..i])
    ensures ContainerPortOk(ports[i]) <==> PortsOk(ports[..i + 1])
    ensures PortsOk(ports) ==> ContainerPortOk(ports[i])
  {
    forall k | 0 <= k < i ensures ports[..i + 1][k] == ports[..i][k] {}
  }

  method ValidatePorts(ports: seq<ContainerPort>, seen: set<string>) returns (ok: bool, keys: set<string>)
    ensures ok <==> PortsOk(ports)
    ensures ok ==> keys == seen + KeysOf(Exposed(ports))
  {
    keys := seen;
    SeenStarts(seen, ports);
    for i := 0 to |ports|
      invariant PortsOk(ports[..i])
      invariant keys == seen + KeysOf(Exposed(ports[..i]))
    {
      PortsNext(ports, i);
      if !ContainerPortOk(ports[i]) {
        return false, keys;
      }
      SeenGrows(seen, ports, i, keys);
      keys := keys + {TargetKey(ExposedPort(ports[i]))};
    }
    ok := true;
  }

  /** The running totals over the containers looked at so far. */
  datatype Totals = Totals(milli: int, bytes: int, portCount: nat, keys: set<string>)

  function TotalsOf(cs: seq<Container>): Totals {
    Totals(Wrap(SumOf(cs, CPU)), Wrap(SumOf(cs, Memory)), |AllPorts(cs)|, KeysOf(Exposed(AllPorts(cs))))
  }

  /** The totals with one more container. */
  function Grown(t: Totals, c: Container): Totals {
    Totals(Wrap(t.milli + Need(c, CPU)), Wrap(t.bytes + Need(c, Memory)), t.portCount + |c.ports|, t.keys + KeysOf(Exposed(c.ports)))
  }

  /** A sum of needs that wraps around at every step. */
  function RunningSum(cs: seq<Container>, d: Dimension): int {
    if cs == [] then 0 else Wrap(RunningSum(cs[..|cs| - 1], d) + Need(cs[|cs| - 1], d))
  }

  lemma {:induction false} RunningSumWraps(cs: seq<Container>, d: Dimension)
    ensures RunningSum(cs, d) == Wrap(SumOf(cs, d))
  {
    if cs != [] {
      RunningSumWraps(cs[..|cs| - 1], d);
      WrapAgain(SumOf(cs[..|cs| - 1], d), Need(cs[|cs| - 1], d));
    }
  }

  /** The totals of a run over the containers in order. */
  function RunningTotals(cs: seq<Container>): Totals {
    if cs == [] then Totals(0, 0, 0, {}) else Grown(RunningTotals(cs[..|cs| - 1]), cs[|cs| - 1])
  }

  lemma {:induction false} RunningTotalsAreSums(cs: seq<Container>)
    ensures RunningTotals(cs).milli == RunningSum(cs, CPU) && RunningTotals(cs).bytes == RunningSum(cs, Memory)
  {
    if cs != [] { RunningTotalsAreSums(cs[..|cs| - 1]); }
  }

  lemma {:induction false} CountIsAll(cs: seq<Container>)
    ensures RunningTotals(cs).portCount == |AllPorts(cs)|
  {
    if cs != [] { CountIsAll(cs[..|cs| - 1]); }
  }

  lemma {:induction false} KeysAreAll(cs: seq<Container>)
    ensures RunningTotals(cs).keys == KeysOf(Exposed(AllPorts(cs)))
  {
    if cs != [] {
      KeysAreAll(cs[..|cs| - 1]);
      KeysOfBoth(AllPorts(cs[..|cs| - 1]), cs[|cs| - 1].ports);
    }
  }

  lemma RunningTotalsAreTotals(cs: seq<Container>)
    ensures RunningTotals(cs) == TotalsOf(cs)
  {
    RunningTotalsAreSums(cs);
    RunningSumWraps(cs, CPU);
    RunningSumWraps(cs, Memory);
    CountIsAll(cs);
    KeysAreAll(cs);
  }

  method ValidateContainer(c: Container, t: Totals) returns (ok: bool, out: Container, t': Totals)
    ensures ok <==> ContainerOk(c)
    ensures ok ==> out == Equalized(c) && t' == Grown(t, c)
  {
    if !BasicsOk(c) || !ResourcesOk(c) {
      return false, c, t;
    }
    out := c.(resources := EqualResources(Need(c, CPU), Need(c, Memory)));
    var keys;
    ok, keys := ValidatePorts(c.ports, t.keys);
    t' := Totals(Wrap(t.milli + Need(c, CPU)), Wrap(t.bytes + Need(c, Memory)), t.portCount + |c.ports|, keys);
  }

  method ValidateContainers(cs: seq<Container>) returns (ok: bool, out: seq<Container>, t: Totals)
    ensures ok <==> forall i :: 0 <= i < |cs| ==> ContainerOk(cs[i])
    ensures ok ==> EqualizedSoFar(cs, out, |cs|) && t == TotalsOf(cs)
  {
    out, t := cs, Totals(0, 0, 0, {});
    for i := 0 to |cs|
      invariant EqualizedSoFar(cs, out, i) && t == RunningTotals(cs[..i])
      invariant forall k :: 0 <= k < i ==> ContainerOk(cs[k])
    {
      var c: Container;
      assert cs[..i + 1][..i] == cs[..i];
      ok, c, t := ValidateContainer(cs[i], t);
      if !ok {
        return;
      }
      out := out[i := c];
    }
    assert cs[..|cs|] == cs;
    RunningTotalsAreTotals(cs);
    ok := true;
  }

  // ---------- The pod ----------

  ghost predicate VolumeOk(v: Volume) {
    !v.hostPath && true !in v.sources
  }

  method ValidateVolumes(volumes: seq<Volume>) returns (ok: bool)
    ensures ok <==> forall i :: 0 <= i < |volumes| ==> VolumeOk(volumes[i])
  {
    for i := 0 to |volumes|
      invariant forall k :: 0 <= k < i ==> VolumeOk(volumes[k])
    {
      if volumes[i].hostPath {
        return false;
      }
      for j := 0 to |volumes[i].sources|
        invariant true !in volumes[i].sources[..j]
      {
        if volumes[i].sources[j] {
          assert true in volumes[i].sources;
          return false;
        }
      }
      assert volumes[i].sources[..|volumes[i].sources|] == volumes[i].sources;
    }
    return true;
  }

  predicate PlainPod(pod: Pod) {
    && EqualFold(pod.kind, "Pod")
    && !pod.hostNetwork && !pod.hostPID && !pod.hostIPC
    && pod.seccomp.None?
    && pod.serviceAccount == "" && pod.deprecatedServiceAccount == ""
    && pod.nodeName == "" && pod.runtimeClassName.None?
    && pod.ephemeralContainers == 0
  }

  ghost predicate PodOk(pod: Pod, targets: seq<PortSpec>) {
    && PlainPod(pod)
    && (forall i :: 0 <= i < |pod.volumes| ==> VolumeOk(pod.volumes[i]))
    && pod.containers != []
    && (forall i :: 0 <= i < |pod.initContainers| ==> InitContainerOk(pod.initContainers[i]))
    && (forall i :: 0 <= i < |pod.containers| ==> ContainerOk(pod.containers[i]))
    && AllPorts(pod.containers) != []
    && (forall i :: 0 <= i < |targets| ==> targets[i] in Exposed(AllPorts(pod.containers)))
    && ComputedNeed(pod, CPU) > 0 && ComputedNeed(pod, Memory) > 0
  }

  function Hardened(c: Container): Container {
    Equalized(c).(security := Some(HARDENED))
  }

  function HardenedAll(cs: seq<Container>): seq<Container> {
    seq(|cs|, i requires 0 <= i < |cs| => Hardened(cs[i]))
  }

  /** What is handed to the cluster in place of the pod: only what is listed here differs. */
  function Sanitized(pod: Pod): Pod {
    pod.(restartPolicy := "Never",
         automountToken := Some(false),
         enableServiceLinks := Some(false),
         seccomp := Some(RUNTIME_DEFAULT),
         initContainers := HardenedAll(pod.initContainers),
         containers := HardenedAll(pod.containers))
  }

  method Harden(cs: seq<Container>) returns (out: seq<Container>)
    ensures |out| == |cs| && forall i :: 0 <= i < |cs| ==> out[i] == cs[i].(security := Some(HARDENED))
  {
    out := cs;
    for i := 0 to |cs|
      invariant |out| == |cs|
      invariant forall k :: 0 <= k < i ==> out[k] == cs[k].(security := Some(HARDENED))
      invariant forall k :: i <= k < |cs| ==> out[k] == cs[k]
    {
      out := out[i := out[i].(security := Some(HARDENED))];
    }
  }

  lemma ExposedPortsAreNormal(cs: seq<Container>)
    requires forall i :: 0 <= i < |cs| ==> ContainerOk(cs[i])
    ensures PortsOk(AllPorts(cs))
  {
    if cs != [] { ExposedPortsAreNormal(cs[..|cs| - 1]); }
  }

  lemma ExposedProtocols(ports: seq<ContainerPort>)
    requires PortsOk(ports)
    ensures forall t :: t in Exposed(ports) ==> IsProtocol(t.protocol)
  {
    forall t | t in Exposed(ports) ensures IsProtocol(t.protocol) {
      var i :| 0 <= i < |Exposed(ports)| && Exposed(ports)[i] == t;
      assert ContainerPortOk(ports[i]);
    }
  }

  /** The string keys decide exactly whether a target is exposed. */
  lemma TargetKeyTells(cs: seq<Container>, target: PortSpec)
    requires forall i :: 0 <= i < |cs| ==> ContainerOk(cs[i])
    requires IsProtocol(target.protocol)
    ensures TargetKey(target) in KeysOf(Exposed(AllPorts(cs))) <==> target in Exposed(AllPorts(cs))
  {
    ExposedPortsAreNormal(cs);
    ExposedProtocols(AllPorts(cs));
    KeyTells(Exposed(AllPorts(cs)), target);
  }

  /** The set of keys answers for each target. */
  ghost predicate KeysTell(targets: seq<PortSpec>, keys: set<string>, exposed: seq<PortSpec>) {
    forall i :: 0 <= i < |targets| ==>
      (TargetKey(targets[i]) in keys <==> targets[i] in exposed)
  }

  lemma TargetKeysTell(cs: seq<Container>, targets: seq<PortSpec>)
    requires forall i :: 0 <= i < |cs| ==> ContainerOk(cs[i])
    requires forall i :: 0 <= i < |targets| ==> IsProtocol(targets[i].protocol)
    ensures KeysTell(targets, KeysOf(Exposed(AllPorts(cs))), Exposed(AllPorts(cs)))
  {
    forall i | 0 <= i < |targets|
      ensures TargetKey(targets[i]) in KeysOf(Exposed(AllPorts(cs))) <==> targets[i] in Exposed(AllPorts(cs))
    {
      TargetKeyTells(cs, targets[i]);
    }
  }

  method ValidateTargets(targets: seq<PortSpec>, keys: set<string>, ghost exposed: seq<PortSpec>) returns (ok: bool)
    requires KeysTell(targets, keys, exposed)
    ensures ok <==> forall i :: 0 <= i < |targets| ==> targets[i] in exposed
  {
    for i := 0 to |targets|
      invariant forall k :: 0 <= k < i ==> targets[k] in exposed
    {
      if TargetKey(targets[i]) !in keys {
        return false;
      }
    }
    return true;
  }

  /** Everything but the containers and the targets. */
  method ValidatePodFields(pod: Pod) returns (ok: bool)
    ensures ok <==> PlainPod(pod) && (forall i :: 0 <= i < |pod.volumes| ==> VolumeOk(pod.volumes[i])) && pod.containers != []
  {
    if !PlainPod(pod) {
      return false;
    }
    ok := ValidateVolumes(pod.volumes);
    if ok && |pod.containers| == 0 {
      ok := false;
    }
  }

  lemma HardenedTwice(cs: seq<Container>, equal: seq<Container>, out: seq<Container>)
    requires EqualizedSoFar(cs, equal, |cs|) && |out| == |cs|
    requires forall i :: 0 <= i < |cs| ==> out[i] == equal[i].(security := Some(HARDENED))
    ensures out == HardenedAll(cs)
  {
  }

  method ValidatePod(pod: Pod, targets: seq<PortSpec>) returns (r: Result<Accepted, Error>)
    requires forall i :: 0 <= i < |targets| ==> IsProtocol(targets[i].protocol)
    ensures r.Ok? <==> PodOk(pod, targets)
    ensures r.Ok? ==> r.value == Accepted(Sanitized(pod), ComputedNeed(pod, CPU), ComputedNeed(pod, Memory), targets)
    ensures r.Err? ==> r.error == PodSpecInvalid
  {
    var ok := ValidatePodFields(pod);
    if !ok {
      return Err(PodSpecInvalid);
    }
    var inits, initMilli, initBytes;
    ok, inits, initMilli, initBytes := ValidateInitContainers(pod.initContainers);
    if !ok {
      return Err(PodSpecInvalid);
    }
    var containers, totals;
    ok, containers, totals := ValidateContainers(pod.containers);
    if !ok || totals.portCount == 0 {
      return Err(PodSpecInvalid);
    }
    TargetKeysTell(pod.containers, targets);
    ok := ValidateTargets(targets, totals.keys, Exposed(AllPorts(pod.containers)));
    if !ok {
      return Err(PodSpecInvalid);
    }
    var milli, bytes := Max(totals.milli, initMilli), Max(totals.bytes, initBytes);
    if milli <= 0 || bytes <= 0 {
      return Err(PodSpecInvalid);
    }
    var hardInits := Harden(inits);
    HardenedTwice(pod.initContainers, inits, hardInits);
    var hardContainers := Harden(containers);
    HardenedTwice(pod.containers, containers, hardContainers);
    return Ok(Accepted(
      pod.(restartPolicy := "Never", automountToken := Some(false), enableServiceLinks := Some(false),
           seccomp := Some(RUNTIME_DEFAULT), initContainers := hardInits, containers := hardContainers),
      milli, bytes, targets));
  }

  function NormalizedTargets(targets: seq<PortSpec>): seq<PortSpec> {
    seq(|targets|, i requires 0 <= i < |targets| => Normalized(targets[i]))
  }

  /** `parsed` is the pod the text denotes, if it denotes one. */
  method ValidatePodSpec(raw: string, parsed: Option<Pod>, targetPorts: seq<PortSpec>) returns (r: Result<Accepted, Error>)
    ensures r == Err(InvalidInput) <==> TrimSpace(raw) != "" && !TargetsOk(targetPorts)
    ensures r.Ok? <==>
            (TrimSpace(raw) != "" && TargetsOk(targetPorts) && parsed.Some? && PodOk(parsed.value, NormalizedTargets(targetPorts)))
    ensures r.Ok? ==>
      r.value == Accepted(Sanitized(parsed.value), ComputedNeed(parsed.value, CPU), ComputedNeed(parsed.value, Memory), NormalizedTargets(targetPorts))
    ensures r.Err? ==> r.error == InvalidInput || r.error == PodSpecInvalid
    ensures r.Ok? ==> IsSound(r.value) && (AmountsFit(parsed.value.initContainers) ==> TotalsExactWhenFitting(r.value))
  {
    if TrimSpace(raw) == "" {
      return Err(PodSpecInvalid);
    }
    var targets := NormalizeTargets(targetPorts);
    if targets.Err? {
      return Err(targets.error);
    }
    assert targets.value == NormalizedTargets(targetPorts);
    if parsed.None? {
      return Err(PodSpecInvalid);
    }
    r := ValidatePod(parsed.value, targets.value);
    if r.Ok? {
      AcceptedPodIsSound(parsed.value, targetPorts, r.value);
    }
  }

  // ---------- What acceptance means ----------

  ghost predicate EqualLimits(cs: seq<Container>) {
    forall i :: 0 <= i < |cs| ==> cs[i].resources.requests == cs[i].resources.limits && cs[i].security == Some(HARDENED)
  }

  lemma {:induction false} SameNeeds(cs: seq<Container>, d: Dimension)
    ensures SumOf(HardenedAll(cs), d) == SumOf(cs, d) && MaxOf(HardenedAll(cs), d) == MaxOf(cs, d)
  {
    if cs != [] {
      SameNeeds(cs[..|cs| - 1], d);
      assert HardenedAll(cs)[..|cs| - 1] == HardenedAll(cs[..|cs| - 1]);
      assert Need(HardenedAll(cs)[|cs| - 1], d) == Need(cs[|cs| - 1], d);
    }
  }

  /** Quantities have 64 bits. */
  ghost predicate AmountsFit(cs: seq<Container>) {
    forall i, d :: 0 <= i < |cs| ==> Need(cs[i], d) <= MAX_INT64
  }

  lemma {:induction false} SumIsPositive(cs: seq<Container>, d: Dimension)
    requires forall i :: 0 <= i < |cs| ==> ContainerOk(cs[i])
    ensures SumOf(cs, d) >= 0
  {
    if cs != [] {
      SumIsPositive(cs[..|cs| - 1], d);
      assert ContainerOk(cs[|cs| - 1]);
    }
  }

  lemma {:induction false} LargestFits(cs: seq<Container>, d: Dimension)
    requires AmountsFit(cs)
    ensures MaxOf(cs, d) <= MAX_INT64
  {
    if cs != [] {
      LargestFits(cs[..|cs| - 1], d);
      assert Need(cs[|cs| - 1], d) <= MAX_INT64;
    }
  }

  /** The computed total is what the sanitised pod needs exactly when the sum of its containers fits. */
  lemma NeedIsExact(pod: Pod, d: Dimension)
    requires AmountsFit(pod.initContainers) && forall i :: 0 <= i < |pod.containers| ==> ContainerOk(pod.containers[i])
    ensures ComputedNeed(pod, d) == PodNeed(Sanitized(pod), d) <==> SumOf(Sanitized(pod).containers, d) <= MAX_INT64
  {
    SameNeeds(pod.containers, d);
    SameNeeds(pod.initContainers, d);
    SumIsPositive(pod.containers, d);
    LargestFits(pod.initContainers, d);
    WrapFits(SumOf(pod.containers, d));
  }

  lemma TargetsAreNormal(targets: seq<PortSpec>)
    requires TargetsOk(targets)
    ensures 1 <= |NormalizedTargets(targets)| <= 24 && Distinct(NormalizedTargets(targets))
    ensures forall i :: 0 <= i < |targets| ==>
              PortInRange(NormalizedTargets(targets)[i].containerPort) && IsProtocol(NormalizedTargets(targets)[i].protocol)
  {
    forall i | 0 <= i < |targets| ensures IsProtocol(NormalizedTargets(targets)[i].protocol) {
      assert TargetOk(targets[i]);
    }
  }

  ghost predicate ExposedBy(c: Container, target: PortSpec) {
    exists j :: 0 <= j < |c.ports| && ExposedPort(c.ports[j]) == target
  }

  ghost predicate ExposedBySome(cs: seq<Container>, target: PortSpec) {
    exists i :: 0 <= i < |cs| && ExposedBy(cs[i], target)
  }

  lemma {:induction false} ExposedMeansBySome(cs: seq<Container>, target: PortSpec)
    requires target in Exposed(AllPorts(cs))
    ensures ExposedBySome(HardenedAll(cs), target)
  {
    var n := |cs| - 1;
    var before := Exposed(AllPorts(cs[..n]));
    assert Exposed(AllPorts(cs)) == before + Exposed(cs[n].ports);
    if target in before {
      ExposedMeansBySome(cs[..n], target);
      var i :| 0 <= i < n && ExposedBy(HardenedAll(cs[..n])[i], target);
      assert HardenedAll(cs)[i] == HardenedAll(cs[..n])[i];
    } else {
      var j :| 0 <= j < |cs[n].ports| && Exposed(cs[n].ports)[j] == target;
      assert ExposedPort(HardenedAll(cs)[n].ports[j]) == target;
      assert ExposedBy(HardenedAll(cs)[n], target);
    }
  }

  lemma AllExposed(cs: seq<Container>, targets: seq<PortSpec>)
    requires forall i :: 0 <= i < |targets| ==> targets[i] in Exposed(AllPorts(cs))
    ensures forall i :: 0 <= i < |targets| ==> ExposedBySome(HardenedAll(cs), targets[i])
  {
    forall i | 0 <= i < |targets| ensures ExposedBySome(HardenedAll(cs), targets[i]) {
      ExposedMeansBySome(cs, targets[i]);
    }
  }

  /** One to 24 distinct targets in range, each exposed by a container; every container hardened, with requests equal to limits. */
  ghost predicate IsSound(a: Accepted) {
    && 1 <= |a.targetPorts| <= 24 && Distinct(a.targetPorts)
    && (forall i :: 0 <= i < |a.targetPorts| ==>
          && PortInRange(a.targetPorts[i].containerPort) && IsProtocol(a.targetPorts[i].protocol)
          && ExposedBySome(a.pod.containers, a.targetPorts[i]))
    && EqualLimits(a.pod.containers) && EqualLimits(a.pod.initContainers)
    && a.requestedMilli > 0 && a.requestedBytes > 0
  }

  /** A reported total is what the pod needs exactly when the sum over its containers fits in 64 bits. */
  ghost predicate TotalsExactWhenFitting(a: Accepted) {
    && (a.requestedMilli == PodNeed(a.pod, CPU) <==> SumOf(a.pod.containers, CPU) <= MAX_INT64)
    && (a.requestedBytes == PodNeed(a.pod, Memory) <==> SumOf(a.pod.containers, Memory) <= MAX_INT64)
  }

  lemma AcceptedFieldsAreSound(pod: Pod, targets: seq<PortSpec>)
    requires ComputedNeed(pod, CPU) > 0 && ComputedNeed(pod, Memory) > 0
    requires 1 <= |targets| <= 24 && Distinct(targets)
    requires forall i :: 0 <= i < |targets| ==> PortInRange(targets[i].containerPort) && IsProtocol(targets[i].protocol)
    requires forall i :: 0 <= i < |targets| ==> targets[i] in Exposed(AllPorts(pod.containers))
    ensures IsSound(Accepted(Sanitized(pod), ComputedNeed(pod, CPU), ComputedNeed(pod, Memory), targets))
  {
    AllExposed(pod.containers, targets);
  }

  lemma AcceptedPodIsSound(pod: Pod, targetPorts: seq<PortSpec>, a: Accepted)
    ensures TargetsOk(targetPorts) && PodOk(pod, NormalizedTargets(targetPorts))
            && a == Accepted(Sanitized(pod), ComputedNeed(pod, CPU), ComputedNeed(pod, Memory), NormalizedTargets(targetPorts)) ==>
              IsSound(a) && (AmountsFit(pod.initContainers) ==> TotalsExactWhenFitting(a))
  {
    if TargetsOk(targetPorts) && PodOk(pod, NormalizedTargets(targetPorts)) {
      TargetsAreNormal(targetPorts);
      AcceptedFieldsAreSound(pod, NormalizedTargets(targetPorts));
      if AmountsFit(pod.initContainers) {
        NeedIsExact(pod, CPU);
        NeedIsExact(pod, Memory);
      }
    }
  }

  // ---------- Sums that do not fit ----------

  const LARGE := 9_000_000_000_000_000_000

  /** A container that needs this much CPU and one byte, and exposes TCP port 80. */
  function LargeContainer(): Container {
    Container("c", "i", [ContainerPort(80, 0, "", "TCP")], EqualResources(LARGE, 1), None)
  }

  /** Three of them: their sum wraps around to a positive number. */
  function LargePod(): Pod {
    Pod("Pod", false, false, false, None, "", "", "", None, 0, [], [], [LargeContainer(), LargeContainer(), LargeContainer()], "", None, None)
  }

  lemma OneContainerMore(cs: seq<Container>, c: Container, d: Dimension)
    ensures SumOf(cs + [c], d) == SumOf(cs, d) + Need(c, d) && AllPorts(cs + [c]) == AllPorts(cs) + c.ports
  {
    assert (cs + [c])[..|cs|] == cs;
  }

  lemma SumOfThree(a: Container, b: Container, c: Container, d: Dimension)
    ensures SumOf([a, b, c], d) == Need(a, d) + Need(b, d) + Need(c, d)
    ensures AllPorts([a, b, c]) == a.ports + b.ports + c.ports
  {
    OneContainerMore([], a, d);
    OneContainerMore([a], b, d);
    OneContainerMore([a, b], c, d);
    assert [a] + [b] == [a, b] && [a, b] + [c] == [a, b, c];
    assert [] + [a] == [a] && [] + a.ports == a.ports;
  }

  lemma LargePodSums()
    ensures SumOf(LargePod().containers, CPU) == 3 * LARGE && SumOf(LargePod().containers, Memory) == 3
    ensures AllPorts(LargePod().containers) != [] && AllPorts(LargePod().containers)[0] == ContainerPort(80, 0, "", "TCP")
  {
    var c := LargeContainer();
    SumOfThree(c, c, c, CPU);
    SumOfThree(c, c, c, Memory);
  }

  lemma LargePodIsAccepted(targets: seq<PortSpec>)
    requires targets == [PortSpec(80, "TCP")]
    ensures PodOk(LargePod(), targets)
  {
    LargePodSums();
    assert TrimSpace("c") == "c" && TrimSpace("i") == "i";
    assert ContainerOk(LargeContainer());
    assert Exposed(AllPorts(LargePod().containers))[0] == PortSpec(80, "TCP");
    assert ComputedNeed(LargePod(), CPU) == 3 * LARGE - 0x1_0000_0000_0000_0000;
    assert ComputedNeed(LargePod(), Memory) == 3;
  }

  /** A pod whose sum does not fit can be accepted, and its reported total is then too small. */
  lemma WrappedTotalIsAccepted()
    ensures TargetsOk([PortSpec(80, "TCP")]) && PodOk(LargePod(), NormalizedTargets([PortSpec(80, "TCP")]))
    ensures AmountsFit(LargePod().initContainers)
    ensures ComputedNeed(LargePod(), CPU) < PodNeed(LargePod(), CPU) == PodNeed(Sanitized(LargePod()), CPU)
  {
    var targets := [PortSpec(80, "TCP")];
    assert TrimSpace("TCP") == "TCP" && Upper("TCP") == "TCP";
    assert NormalizedTargets(targets) == targets;
    LargePodIsAccepted(targets);
    LargePodSums();
    SameNeeds(LargePod().containers, CPU);
    SameNeeds(LargePod().initContainers, CPU);
  }
}
