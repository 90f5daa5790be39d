/**
 Creates, deletes, refreshes and cleanup cycles, any number of each, interleaved call by call
 over one in-memory repository and one cluster. Every call may fail; nodes, pods and
 services may be lost or vanish; pods nobody here created may appear.
 */
module Reconciliation {
  import opened Types
  import opened Repository
  import Convergence

  const GRACE: Time := Convergence.GRACE

  /** The pod of one attempt to create a stack, or a pod of somebody else. */
  datatype PodName = StackPod(id: string, attempt: nat) | Foreign(n: nat)

  /** What matters here of a stack record. */
  datatype Record = Record(pod: PodName, ports: seq<int>, ttl: Time, node: string)

  datatype PodObject = PodObject(stackID: string, node: string, createdAt: Option<Time>, lost: bool)

  /** Repository and cluster. A service is named by its stack and has its node ports. */
  datatype Store = Store(
    stacks: map<string, Record>,
    ports: map<int, string>,
    pods: map<PodName, PodObject>,
    services: map<string, seq<int>>,
    nodes: set<string>)

  datatype CreatorPc =
    | Reserving | PodNext | ServiceNext | Waiting | CommitNext    // on the way to a commit
    | UndoService | UndoPod | Unwind                              // compensating
    | Done

  /** `made` once this attempt has created its pod, at `podAt`; `node` is where it was bound. */
  datatype Creator = Creator(pc: CreatorPc, attempt: nat, held: seq<int>, made: bool, podAt: Time, node: string)

  datatype WorkerPc = Inspect | Peek | Touch(node: string) | DropService | DropPod | DropRecord | Finished

  /** A refresh or a deletion at work on the copy of a record it has read. */
  datatype Worker = Worker(id: string, rec: Record, pc: WorkerPc)

  datatype Activity = Idle | Busy(worker: Worker) | Sweeping(pod: PodName)

  /**
   A cleanup cycle: the time and step it began at, the stacks it listed and those it has read
   back since, and its listings of pods and services.
   */
  datatype Cleaner = Cleaner(
    now: Time, since: nat,
    names: set<string>, seen: map<string, Record>,
    pods: Option<set<PodName>>, services: Option<set<string>>,
    infos: Option<map<PodName, PodObject>>,
    doing: Activity)

  datatype Sys = Sys(
    steps: nat, clock: Time, store: Store,
    creators: map<string, Creator>, workers: map<nat, Worker>, cleaners: map<nat, Cleaner>)

  datatype CreatorAction =
    | Reserve(port: int) | ReserveFails | Reserved
    | CreatePod(at: Time) | CreatePodFails
    | CreateService | CreateServiceFails
    | Scheduled(node: string) | NotScheduled
    | Commit(ttl: Time) | CommitFails
    | DeleteService | DeleteServiceFails | DeletePod | DeletePodFails
    | Release | Finish(again: bool)

  datatype WorkerAction = Step | Fails

  datatype CleanerAction =
    | ListStacks
    | RefreshOne(id: string) | ReadBack(id: string)
    | Expire(id: string)
    | ListPods | ListServices | DropMissing(id: string)
    | ListInfos | Guard(pod: PodName) | Sweep | SweepFails
    | Work(a: WorkerAction)

  datatype Event =
    | Tick(to: Time)
    | LoseNode(node: string) | AddNode(node: string)
    | LosePod(pod: PodName) | Vanish(pod: PodName) | VanishService(id: string)
    | Appear(n: nat, obj: PodObject)
    | Start(c: string)
    | Create(c: string, act: CreatorAction)
    | Begin(w: nat, id: string, refresh: bool)
    | Advance(w: nat, a: WorkerAction)
    | StartCycle(k: nat)
    | Clean(k: nat, does: CleanerAction)

  // ---------- Steps ----------

  predicate AllReserved(ports: map<int, string>, held: seq<int>) {
    forall p :: p in held ==> p in ports && ports[p] == ""
  }

  function CreatorStep(s: Store, clock: Time, c: string, k: Creator, act: CreatorAction): Option<(Store, Creator)> {
    var pod := StackPod(c, k.attempt);
    match act
    case Reserve(p) =>
      if k.pc.Reserving? && p !in s.ports then
        Some((s.(ports := s.ports[p := ""]), k.(held := k.held + [p])))
      else None
    case ReserveFails => if k.pc.Reserving? then Some((s, k.(pc := Unwind))) else None
    case Reserved => if k.pc.Reserving? then Some((s, k.(pc := PodNext))) else None
    case CreatePod(at) =>
      if k.pc.PodNext? && pod !in s.pods && at <= clock then
        Some((s.(pods := s.pods[pod := PodObject(c, "", Some(at), false)]), k.(pc := ServiceNext, made := true, podAt := at)))
      else None
    case CreatePodFails => if k.pc.PodNext? then Some((s, k.(pc := Unwind))) else None
    case CreateService =>
      if k.pc.ServiceNext? && c !in s.services then
        Some((s.(services := s.services[c := k.held]), k.(pc := Waiting)))
      else None
    case CreateServiceFails => if k.pc.ServiceNext? then Some((s, k.(pc := UndoPod))) else None
    case Scheduled(node) =>
      if k.pc.Waiting? && pod in s.pods then
        Some((s.(pods := s.pods[pod := s.pods[pod].(node := node)]), k.(pc := CommitNext, node := node)))
      else None
    case NotScheduled => if k.pc.Waiting? then Some((s, k.(pc := UndoService))) else None
    case Commit(ttl) =>
      if k.pc.CommitNext? then
        if c !in s.stacks && k.held != [] && AllReserved(s.ports, k.held) then
          Some((s.(stacks := s.stacks[c := Record(pod, k.held, ttl, k.node)], ports := Claim(s.ports, Elements(k.held), c)),
                k.(pc := Done, held := [])))
        else Some((s, k.(pc := UndoService)))
      else None
    case CommitFails => if k.pc.CommitNext? then Some((s, k.(pc := UndoService))) else None
    case DeleteService => if k.pc.UndoService? then Some((s.(services := s.services - {c}), k.(pc := UndoPod))) else None
    case DeleteServiceFails => if k.pc.UndoService? then Some((s, k.(pc := UndoPod))) else None
    case DeletePod => if k.pc.UndoPod? then Some((s.(pods := s.pods - {pod}), k.(pc := Unwind))) else None
    case DeletePodFails => if k.pc.UndoPod? then Some((s, k.(pc := Unwind))) else None
    case Release =>
      if k.pc.Unwind? && k.held != [] then
        Some((if k.held[0] in s.ports && s.ports[k.held[0]] == "" then s.(ports := s.ports - {k.held[0]}) else s,
              k.(held := k.held[1..])))
      else None
    case Finish(again) =>
      if k.pc.Unwind? && k.held == [] then
        Some((s, if again && k.attempt == 0 then Creator(Reserving, 1, [], false, k.podAt, "") else k.(pc := Done)))
      else None
  }

  function DropStack(s: Store, id: string): Store {
    if id in s.stacks then s.(stacks := s.stacks - {id}, ports := s.ports - Elements(s.stacks[id].ports)) else s
  }

  /** The record of a stack whose pod shows this node; an unbound pod leaves the node as it is. */
  function Moved(rec: Record, node: string): Record {
    if node != "" then rec.(node := node) else rec
  }

  /** One call of a refresh or a deletion; a failing one is logged, and the record goes all the same. */
  function WorkerStep(s: Store, w: Worker, a: WorkerAction): Option<(Store, Worker)> {
    match w.pc
    case Inspect =>
      Some((s, w.(pc := if a.Fails? then Finished else if w.rec.node in s.nodes then Peek else DropService)))
    case Peek =>
      Some((s, w.(pc := if a.Fails? then Finished
                        else if w.rec.pod !in s.pods then DropRecord
                        else if s.pods[w.rec.pod].lost then DropService
                        else Touch(s.pods[w.rec.pod].node))))
    case Touch(node) =>
      Some((if a.Step? && w.id in s.stacks then s.(stacks := s.stacks[w.id := Moved(s.stacks[w.id], node)]) else s, w.(pc := Finished)))
    case DropService =>
      Some(if a.Fails? then (s, w.(pc := DropRecord)) else (s.(services := s.services - {w.id}), w.(pc := DropPod)))
    case DropPod =>
      Some((if a.Fails? then s else s.(pods := s.pods - {w.rec.pod}), w.(pc := DropRecord)))
    case DropRecord =>
      Some((if a.Fails? then s else DropStack(s, w.id), w.(pc := Finished)))
    case Finished => None
  }

  /** A worker that begins by reading the record. */
  function Reading(s: Store, id: string, refresh: bool): Option<Worker> {
    if id in s.stacks then Some(Worker(id, s.stacks[id], if refresh then Inspect else DropService)) else None
  }

  function Registered(seen: map<string, Record>): set<PodName> {
    set id | id in seen :: seen[id].pod
  }

  predicate Old(pod: PodObject, now: Time) {
    pod.createdAt.Some? ==> pod.createdAt.value <= now - GRACE
  }

  function CleanerStep(s: Store, k: Cleaner, does: CleanerAction): Option<(Store, Cleaner)> {
    if does.Work? then
      (if k.doing.Busy? && WorkerStep(s, k.doing.worker, does.a).Some? then
         var (s', w') := WorkerStep(s, k.doing.worker, does.a).value;
         Some((s', k.(doing := if w'.pc.Finished? then Idle else Busy(w'))))
       else None)
    else if does.Sweep? || does.SweepFails? then
      (if k.doing.Sweeping? then
         Some((if does.Sweep? then s.(pods := s.pods - {k.doing.pod}) else s, k.(doing := Idle)))
       else None)
    else if !k.doing.Idle? then None
    else
      match does
      case ListStacks =>
        Some((s, k.(names := s.stacks.Keys, seen := map[], pods := None, services := None, infos := None)))
      case RefreshOne(id) =>
        if id in k.names then
          Some((s, k.(doing := if Reading(s, id, true).Some? then Busy(Reading(s, id, true).value) else Idle)))
        else None
      case ReadBack(id) =>
        if id in k.names && k.pods.None? && k.infos.None? then
          Some((s, if id in s.stacks then k.(seen := k.seen[id := s.stacks[id]]) else k))
        else None
      case Expire(id) =>
        if id in k.seen && k.seen[id].ttl <= k.now then Some((s, k.(doing := Busy(Worker(id, k.seen[id], DropService))))) else None
      case ListPods => Some((s, k.(pods := Some(s.pods.Keys), services := None)))
      case ListServices => if k.pods.Some? then Some((s, k.(services := Some(s.services.Keys)))) else None
      case DropMissing(id) =>
        if id in k.seen && k.pods.Some? && k.services.Some? && !(k.seen[id].pod in k.pods.value && id in k.services.value) then
          Some((s, k.(doing := Busy(Worker(id, k.seen[id], DropService)))))
        else None
      case ListInfos => Some((s, k.(infos := Some(s.pods))))
      case Guard(p) =>
        if k.infos.Some? && p in k.infos.value && p !in Registered(k.seen) && Old(k.infos.value[p], k.now) then
          var owner := k.infos.value[p].stackID;
          Some((s, if owner != "" && owner in s.stacks && s.stacks[owner].pod == p then k else k.(doing := Sweeping(p))))
        else None
  }

  function Next(s: Sys, e: Event): Option<Sys> {
    var t := s.(steps := s.steps + 1);
    match e
    case Tick(to) => if s.clock <= to then Some(t.(clock := to)) else None
    case LoseNode(n) => Some(t.(store := s.store.(nodes := s.store.nodes - {n})))
    case AddNode(n) => Some(t.(store := s.store.(nodes := s.store.nodes + {n})))
    case LosePod(p) =>
      if p in s.store.pods then Some(t.(store := s.store.(pods := s.store.pods[p := s.store.pods[p].(lost := true)]))) else None
    case Vanish(p) => Some(t.(store := s.store.(pods := s.store.pods - {p})))
    case VanishService(id) => Some(t.(store := s.store.(services := s.store.services - {id})))
    case Appear(n, obj) =>
      if Foreign(n) in s.store.pods then None else Some(t.(store := s.store.(pods := s.store.pods[Foreign(n) := obj])))
    case Start(c) =>
      if c == "" || c in s.creators then None else Some(t.(creators := s.creators[c := Creator(Reserving, 0, [], false, 0, "")]))
    case Create(c, act) =>
      if c in s.creators then
        (match CreatorStep(s.store, s.clock, c, s.creators[c], act)
         case Some((store, k)) => Some(t.(store := store, creators := s.creators[c := k]))
         case None => None)
      else None
    case Begin(w, id, refresh) =>
      if w in s.workers || Reading(s.store, id, refresh).None? then None
      else Some(t.(workers := s.workers[w := Reading(s.store, id, refresh).value]))
    case Advance(w, a) =>
      if w in s.workers then
        (match WorkerStep(s.store, s.workers[w], a)
         case Some((store, w')) => Some(t.(store := store, workers := s.workers[w := w']))
         case None => None)
      else None
    case StartCycle(k) =>
      if k in s.cleaners && !s.cleaners[k].doing.Idle? then None
      else Some(t.(cleaners := s.cleaners[k := Cleaner(s.clock, s.steps, {}, map[], None, None, None, Idle)]))
    case Clean(k, does) =>
      if k in s.cleaners then
        (match CleanerStep(s.store, s.cleaners[k], does)
         case Some((store, k')) => Some(t.(store := store, cleaners := s.cleaners[k := k']))
         case None => None)
      else None
  }

  function Init(clock: Time, nodes: set<string>): Sys {
    Sys(0, clock, Store(map[], map[], map[], map[], nodes), map[], map[], map[])
  }

  /** The states of a run, one event between each two. */
  ghost predicate IsRun(run: seq<Sys>, es: seq<Event>) {
    && |run| == |es| + 1
    && (exists clock, nodes :: run[0] == Init(clock, nodes))
    && (forall i :: 0 <= i < |es| ==> Next(run[i], es[i]) == Some(run[i + 1]))
  }
}
