/** The replicated control state and its commands (control/state.go, catalog.go, node_state.go,
    migration_state.go, rebalance.go, snapshot.go and fsm.go), as functions on a value. */
module ControlModel {
  import opened Common
  import opened Routing
  import opened Rebalance
  import opened MigrationTasks

  datatype Namespace = Namespace(namespace: Text, version: nat, createdAtUnix: int)

  datatype EntityRef = EntityRef(namespace: Text, space: Text, entity: Text)

  datatype Entity = Entity(namespace: Text, space: Text, entity: Text, createdAtUnix: int)

  datatype Reason =
    | NodeRegistered | NodeAddress | NodeRemoved | NodeRecovered | NodeSuspect | NodeDead | SpaceCreated

  /** What an event reports about: a node, or a newly created space. */
  datatype Subject = AboutNode(node: Node) | AboutSpace(scope: Scope)

  datatype Event = Event(id: nat, revision: nat, reason: Reason, subject: Subject, routeCount: nat, createdAtUnix: int)

  datatype Plan = Plan(id: nat, revision: nat, reason: Reason, state: TaskState, createdAtUnix: int, tasks: seq<Task>)

  datatype State = State(
    clusterId: Text, revision: nat,
    namespaces: map<Text, Namespace>, spaces: map<Scope, Space>, entities: map<EntityRef, Entity>,
    nodes: map<Text, Node>, events: seq<Event>, plans: seq<Plan>,
    nextEvent: nat, nextPlan: nat, lastRoutes: seq<Route>)

  const MAX_REBALANCE_EVENTS := 128
  const MAX_MIGRATION_PLANS := 128

  function Init(clusterId: Text): State {
    State(clusterId, 0, map[], map[], map[], map[], [], [], 0, 0, [])
  }

  // ---------------------------------------------------------------- names

  /** Go's `strings.TrimSpace` and the host:port grammar check, which this model does not spell out. */
  datatype Validation = Validation(trim: Text -> Text, addrOk: Text -> bool)

  predicate CatalogRune(b: byte) {
    'a' as int <= b as int <= 'z' as int || 'A' as int <= b as int <= 'Z' as int
    || '0' as int <= b as int <= '9' as int || b as int in {'-' as int, '_' as int, '.' as int}
  }

  predicate CatalogName(name: Text) {
    0 < |name| <= 128 && forall k :: 0 <= k < |name| ==> CatalogRune(name[k])
  }

  /** What trimming does: it is idempotent and leaves catalog names, which hold no spaces, alone. */
  ghost predicate Lawful(v: Validation) {
    && (forall t :: v.trim(v.trim(t)) == v.trim(t))
    && (forall t :: CatalogName(t) ==> v.trim(t) == t)
  }

  function NormalName(v: Validation, name: Text): Option<Text> {
    var t := v.trim(name);
    if CatalogName(t) then Some(t) else None
  }

  function NormalScope(v: Validation, namespace: Text, space: Text): Option<Scope> {
    match (NormalName(v, namespace), NormalName(v, space))
    case (Some(n), Some(s)) => Some(Scope(n, s))
    case _ => None
  }

  function NormalEntity(v: Validation, namespace: Text, space: Text, entity: Text): Option<EntityRef> {
    match (NormalScope(v, namespace, space), NormalName(v, entity))
    case (Some(scope), Some(e)) => Some(EntityRef(scope.namespace, scope.space, e))
    case _ => None
  }

  function NormalNodeId(v: Validation, nodeId: Text): Option<Text> {
    var t := v.trim(nodeId);
    if t == [] || 0 in t then None else Some(t)
  }

  function NormalAddr(v: Validation, addr: Text): Option<Text> {
    var t := v.trim(addr);
    if t == [] || !v.addrOk(t) then None else Some(t)
  }

  // ---------------------------------------------------------------- sorted views

  predicate ScopeLe(a: Scope, b: Scope) {
    if a.namespace == b.namespace then TextLe(a.space, b.space) else TextLe(a.namespace, b.namespace)
  }

  lemma ScopeOrder()
    ensures TotalOrder(ScopeLe)
  {
    TextOrder();
  }

  predicate EntityLe(a: EntityRef, b: EntityRef) {
    if a.namespace != b.namespace then TextLe(a.namespace, b.namespace)
    else if a.space != b.space then TextLe(a.space, b.space)
    else TextLe(a.entity, b.entity)
  }

  lemma EntityOrder()
    ensures TotalOrder(EntityLe)
  {
    TextOrder();
  }

  /** The values of a map, in the order of the given keys. */
  function ValuesAt<K, V>(m: map<K, V>, keys: seq<K>): (r: seq<V>)
    requires forall k :: k in keys ==> k in m
  {
    seq(|keys|, i requires 0 <= i < |keys| => assert keys[i] in keys; m[keys[i]])
  }

  function SortedNodes(nodes: map<Text, Node>): seq<Node> {
    TextOrder();
    ValuesAt(nodes, SortSet(nodes.Keys, TextLe))
  }

  function SortedNamespaces(namespaces: map<Text, Namespace>): seq<Namespace> {
    TextOrder();
    ValuesAt(namespaces, SortSet(namespaces.Keys, TextLe))
  }

  function SortedSpaces(spaces: map<Scope, Space>): seq<Space> {
    ScopeOrder();
    ValuesAt(spaces, SortSet(spaces.Keys, ScopeLe))
  }

  function SortedEntities(entities: map<EntityRef, Entity>): seq<Entity> {
    EntityOrder();
    ValuesAt(entities, SortSet(entities.Keys, EntityLe))
  }

  function BaseRoutes(nodes: map<Text, Node>, spaces: map<Scope, Space>): seq<Route> {
    RoutesForNodes(SortedNodes(nodes), SortedSpaces(spaces))
  }

  function PlanTasks(plans: seq<Plan>): seq<seq<Task>> {
    seq(|plans|, i requires 0 <= i < |plans| => plans[i].tasks)
  }

  function AllTasks(plans: seq<Plan>): seq<Task> { Flatten(PlanTasks(plans)) }

  /** The catalog and the routes that `Snapshot()` publishes. */
  datatype Published = Published(
    namespaces: seq<Namespace>, spaces: seq<Space>, entities: seq<Entity>, routes: seq<Route>)

  function Publish(s: State): Published {
    Published(SortedNamespaces(s.namespaces), SortedSpaces(s.spaces), SortedEntities(s.entities),
              EffectiveRoutes(BaseRoutes(s.nodes, s.spaces), AllTasks(s.plans)))
  }

  /** The body of `Snapshot()`; its mode is a constant. */
  datatype SnapshotBody = SnapshotBody(clusterId: Text, revision: nat, nodes: seq<Node>, published: Published)

  function SnapshotOf(s: State): SnapshotBody {
    SnapshotBody(s.clusterId, s.revision, SortedNodes(s.nodes), Publish(s))
  }

  // ---------------------------------------------------------------- recording changes

  function KeepLast<T>(xs: seq<T>, limit: nat): seq<T> {
    if |xs| > limit then KeepLast(xs[1..], limit) else xs
  }

  /** Dropping the oldest one by one leaves the newest. */
  lemma {:induction false} KeepLastIs<T>(xs: seq<T>, limit: nat)
    ensures KeepLast(xs, limit) == if |xs| > limit then xs[|xs| - limit..] else xs
  {
    if |xs| > limit { KeepLastIs(xs[1..], limit); }
  }

  function Number(tasks: seq<Task>, planId: nat): seq<Task> {
    seq(|tasks|, i requires 0 <= i < |tasks| => tasks[i].(planId := planId, taskId := i + 1))
  }

  /** `recordMigrationPlanLocked`. */
  function RecordPlan(s: State, reason: Reason, now: int, previous: seq<Route>, current: seq<Route>): State {
    var tasks := BuildTasks(s.revision, now, previous, current);
    if tasks == [] then s
    else
      var id := s.nextPlan + 1;
      s.(nextPlan := id,
         plans := KeepLast(s.plans + [Plan(id, s.revision, reason, Planned, now, Number(tasks, id))], MAX_MIGRATION_PLANS))
  }

  /** `recordRebalanceEventLocked`. */
  function RecordEvent(s: State, reason: Reason, subject: Subject, now: int): State {
    var current := BaseRoutes(s.nodes, s.spaces);
    var id := s.nextEvent + 1;
    var logged := s.(nextEvent := id,
      events := KeepLast(s.events + [Event(id, s.revision, reason, subject, |current|, now)], MAX_REBALANCE_EVENTS));
    RecordPlan(logged, reason, now, s.lastRoutes, current).(lastRoutes := current)
  }

  // ---------------------------------------------------------------- commands

  datatype Error = InvalidName | InvalidNode | NotFound | UnknownCommand

  /** The item a reply reports on. */
  datatype Item =
    | NamespaceItem(namespaceBody: Namespace)
    | SpaceItem(spaceBody: Space)
    | EntityItem(entityBody: Entity)
    | NodeItem(nodeBody: Node)

  datatype Reply =
    | Rejected(error: Error)
    | Accepted(revision: nat, item: Item)
    | Swept(revision: nat, changed: seq<Node>)
    | Claimed(task: Task)
    | NothingToClaim
    | Updated(task: Task)

  datatype Command =
    | CreateNamespace(namespace: Text)
    | CreateSpace(namespace: Text, space: Text)
    | CreateEntity(namespace: Text, space: Text, entity: Text)
    | BumpNamespace(namespace: Text)
    | BumpSpace(namespace: Text, space: Text)
    | RegisterNode(nodeId: Text, addr: Text, nowUnix: int)
    | Heartbeat(nodeId: Text, addr: Text, nowUnix: int)
    | RemoveNode(nodeId: Text)
    // `order` is the order in which the sweep happens to visit the node map
    | AdvanceLiveness(nowUnix: int, suspectAfterMs: int, deadAfterMs: int, order: seq<Text>)
    | ClaimTask(nowUnix: int)
    | CutoverTask(planId: nat, taskId: nat, imported: nat, nowUnix: int)
    | CompleteTask(planId: nat, taskId: nat, imported: nat, deleted: nat, nowUnix: int)
    | FailTask(planId: nat, taskId: nat, message: Text, retryAfterMs: int, nowUnix: int)
    | Unknown

  function CommandTime(nowUnix: int, clock: int): int {
    if nowUnix > 0 then nowUnix else clock
  }

  function DoCreateNamespace(v: Validation, s: State, namespace: Text, clock: int): (State, Reply) {
    match NormalName(v, namespace)
    case None => (s, Rejected(InvalidName))
    case Some(n) =>
      if n in s.namespaces then (s, Accepted(s.revision, NamespaceItem(s.namespaces[n])))
      else
        var item := Namespace(n, 1, clock);
        (s.(revision := s.revision + 1, namespaces := s.namespaces[n := item]), Accepted(s.revision + 1, NamespaceItem(item)))
  }

  function DoCreateSpace(v: Validation, s: State, namespace: Text, space: Text, clock: int): (State, Reply) {
    match NormalScope(v, namespace, space)
    case None => (s, Rejected(InvalidName))
    case Some(scope) =>
      if scope.namespace !in s.namespaces then (s, Rejected(NotFound))
      else if scope in s.spaces then (s, Accepted(s.revision, SpaceItem(s.spaces[scope])))
      else
        var item := Space(scope.namespace, scope.space, 1, clock);
        var added := s.(revision := s.revision + 1, spaces := s.spaces[scope := item]);
        (RecordEvent(added, SpaceCreated, AboutSpace(scope), clock), Accepted(s.revision + 1, SpaceItem(item)))
  }

  function DoCreateEntity(v: Validation, s: State, namespace: Text, space: Text, entity: Text, clock: int): (State, Reply) {
    match NormalEntity(v, namespace, space, entity)
    case None => (s, Rejected(InvalidName))
    case Some(ref) =>
      if ref.namespace !in s.namespaces || Scope(ref.namespace, ref.space) !in s.spaces then (s, Rejected(NotFound))
      else if ref in s.entities then (s, Accepted(s.revision, EntityItem(s.entities[ref])))
      else
        var item := Entity(ref.namespace, ref.space, ref.entity, clock);
        (s.(revision := s.revision + 1, entities := s.entities[ref := item]), Accepted(s.revision + 1, EntityItem(item)))
  }

  function DoBumpNamespace(v: Validation, s: State, namespace: Text): (State, Reply) {
    match NormalName(v, namespace)
    case None => (s, Rejected(InvalidName))
    case Some(n) =>
      if n !in s.namespaces then (s, Rejected(NotFound))
      else
        var item := s.namespaces[n].(version := s.namespaces[n].version + 1);
        (s.(revision := s.revision + 1, namespaces := s.namespaces[n := item]), Accepted(s.revision + 1, NamespaceItem(item)))
  }

  function DoBumpSpace(v: Validation, s: State, namespace: Text, space: Text): (State, Reply) {
    match NormalScope(v, namespace, space)
    case None => (s, Rejected(InvalidName))
    case Some(scope) =>
      if scope.namespace !in s.namespaces || scope !in s.spaces then (s, Rejected(NotFound))
      else
        var item := s.spaces[scope].(version := s.spaces[scope].version + 1);
        (s.(revision := s.revision + 1, spaces := s.spaces[scope := item]), Accepted(s.revision + 1, SpaceItem(item)))
  }

  function DoRegisterNode(v: Validation, s: State, nodeId: Text, addr: Text, now: int, clock: int): (State, Reply) {
    match (NormalNodeId(v, nodeId), NormalAddr(v, addr))
    case (Some(id), Some(at)) =>
      var node := Node(id, at, Healthy, now);
      var stored := s.nodes[id := node];
      if id !in s.nodes || s.nodes[id].addr != at || s.nodes[id].state != Healthy then
        var reason := if id !in s.nodes then NodeRegistered
                      else if s.nodes[id].addr != at then NodeAddress else NodeRecovered;
        (RecordEvent(s.(revision := s.revision + 1, nodes := stored), reason, AboutNode(node), clock), Accepted(s.revision + 1, NodeItem(node)))
      else (s.(nodes := stored), Accepted(s.revision, NodeItem(node)))
    case _ => (s, Rejected(InvalidNode))
  }

  function Bit(b: bool): nat { if b then 1 else 0 }

  function DoHeartbeat(v: Validation, s: State, nodeId: Text, addr: Text, now: int, clock: int): (State, Reply) {
    match (NormalNodeId(v, nodeId), NormalAddr(v, addr))
    case (Some(id), Some(at)) =>
      var known := id in s.nodes;
      var moved := known && s.nodes[id].addr != at;
      var recovered := known && s.nodes[id].state != Healthy;
      var node := Node(id, at, Healthy, now);
      // each of the two changes bumps the revision on its own
      var revision := s.revision + Bit(!known) + Bit(moved) + Bit(recovered);
      var stored := s.(revision := revision, nodes := s.nodes[id := node]);
      if !known || moved || recovered then
        var reason := if recovered then NodeRecovered else if moved then NodeAddress else NodeRegistered;
        (RecordEvent(stored, reason, AboutNode(node), clock), Accepted(revision, NodeItem(node)))
      else (stored, Accepted(revision, NodeItem(node)))
    case _ => (s, Rejected(InvalidNode))
  }

  function DoRemoveNode(v: Validation, s: State, nodeId: Text, clock: int): (State, Reply) {
    match NormalNodeId(v, nodeId)
    case None => (s, Rejected(InvalidNode))
    case Some(id) =>
      if id !in s.nodes then (s, Rejected(NotFound))
      else
        var removed := s.(revision := s.revision + 1, nodes := s.nodes - {id});
        (RecordEvent(removed, NodeRemoved, AboutNode(s.nodes[id]), clock), Accepted(s.revision + 1, NodeItem(s.nodes[id])))
  }

  /** The state the liveness sweep puts a node in. */
  function NextNodeState(node: Node, now: int, suspectAfterMs: int, deadAfterMs: int): NodeState {
    var ageMs := (now - node.lastSeenUnix) * 1000;
    if node.lastSeenUnix <= 0 then node.state
    else if deadAfterMs > 0 && ageMs >= deadAfterMs then Dead
    else if suspectAfterMs > 0 && ageMs >= suspectAfterMs then Suspect
    else node.state
  }

  function LivenessReason(state: NodeState): Reason {
    match state
    case Suspect => NodeSuspect
    case Dead => NodeDead
    case Healthy => NodeRecovered
  }

  function SweepNode(s: State, id: Text, now: int, suspectAfterMs: int, deadAfterMs: int, clock: int): State {
    if id !in s.nodes then s
    else
      var next := NextNodeState(s.nodes[id], now, suspectAfterMs, deadAfterMs);
      if s.nodes[id].state == next then s
      else
        var node := s.nodes[id].(state := next);
        RecordEvent(s.(revision := s.revision + 1, nodes := s.nodes[id := node]), LivenessReason(next), AboutNode(node), clock)
  }

  function Sweep(s: State, order: seq<Text>, now: int, suspectAfterMs: int, deadAfterMs: int, clock: int): State
    decreases order
  {
    if order == [] then s
    else Sweep(SweepNode(s, order[0], now, suspectAfterMs, deadAfterMs, clock), order[1..], now, suspectAfterMs, deadAfterMs, clock)
  }

  /** The nodes the sweep changes, in the order it visits them. */
  function SweepChanged(nodes: map<Text, Node>, order: seq<Text>, now: int, suspectAfterMs: int, deadAfterMs: int): seq<Node> {
    if order == [] then []
    else
      var rest := SweepChanged(nodes, order[1..], now, suspectAfterMs, deadAfterMs);
      if order[0] !in nodes then rest
      else
        var next := NextNodeState(nodes[order[0]], now, suspectAfterMs, deadAfterMs);
        if nodes[order[0]].state == next then rest else [nodes[order[0]].(state := next)] + rest
  }

  function FirstClaimable(tasks: seq<Task>, now: int): Option<nat> {
    if tasks == [] then None
    else if Claimable(tasks[0], now) then Some(0)
    else match FirstClaimable(tasks[1..], now)
         case None => None
         case Some(k) => Some(k + 1)
  }

  lemma {:induction false} FirstClaimableInRange(tasks: seq<Task>, now: int)
    ensures
      match FirstClaimable(tasks, now)
      case None => forall k :: 0 <= k < |tasks| ==> !Claimable(tasks[k], now)
      case Some(i) => i < |tasks| && Claimable(tasks[i], now) && forall k :: 0 <= k < i ==> !Claimable(tasks[k], now)
  {
    if tasks != [] { FirstClaimableInRange(tasks[1..], now); }
  }

  function SetTask(plan: Plan, index: nat, task: Task): Plan
    requires index < |plan.tasks|
  {
    var tasks := plan.tasks[index := task];
    plan.(tasks := tasks, state := PlanState(tasks))
  }

  /** The plans after claiming the first claimable task of the first plan that has one. */
  function ClaimIn(plans: seq<Plan>, now: int): (seq<Plan>, Option<Task>) {
    if plans == [] then (plans, None)
    else
      FirstClaimableInRange(plans[0].tasks, now);
      match FirstClaimable(plans[0].tasks, now)
      case Some(k) =>
        var task := MarkRunning(plans[0].tasks[k], now);
        ([SetTask(plans[0], k, task)] + plans[1..], Some(task))
      case None =>
        var (rest, task) := ClaimIn(plans[1..], now);
        ([plans[0]] + rest, task)
  }

  function DoClaim(s: State, now: int): (State, Reply) {
    var (plans, task) := ClaimIn(s.plans, now);
    match task
    case None => (s, NothingToClaim)
    case Some(t) => (s.(plans := plans, revision := s.revision + 1), Claimed(t))
  }

  function FirstTaskId(tasks: seq<Task>, taskId: nat): (r: Option<nat>)
    ensures r.Some? ==> r.value < |tasks| && tasks[r.value].taskId == taskId
  {
    if tasks == [] then None
    else if tasks[0].taskId == taskId then Some(0)
    else match FirstTaskId(tasks[1..], taskId)
         case None => None
         case Some(k) => Some(k + 1)
  }

  function UpdateIn(plans: seq<Plan>, planId: nat, taskId: nat, update: Update): (seq<Plan>, Option<Task>) {
    if plans == [] then (plans, None)
    else
      var hit := if plans[0].id == planId then FirstTaskId(plans[0].tasks, taskId) else None;
      match hit
      case Some(k) =>
        var task := Apply(plans[0].tasks[k], update);
        ([SetTask(plans[0], k, task)] + plans[1..], Some(task))
      case None =>
        var (rest, task) := UpdateIn(plans[1..], planId, taskId, update);
        ([plans[0]] + rest, task)
  }

  function DoUpdate(s: State, planId: nat, taskId: nat, update: Update): (State, Reply) {
    var (plans, task) := UpdateIn(s.plans, planId, taskId, update);
    match task
    case None => (s, Rejected(NotFound))
    case Some(t) => (s.(plans := plans, revision := s.revision + 1), Updated(t))
  }

  /** `ControlFSM.Apply`: one replicated command, applied when the local clock reads `clock`. */
  function Step(v: Validation, s: State, c: Command, clock: int): (State, Reply) {
    match c
    case CreateNamespace(n) => DoCreateNamespace(v, s, n, clock)
    case CreateSpace(n, p) => DoCreateSpace(v, s, n, p, clock)
    case CreateEntity(n, p, e) => DoCreateEntity(v, s, n, p, e, clock)
    case BumpNamespace(n) => DoBumpNamespace(v, s, n)
    case BumpSpace(n, p) => DoBumpSpace(v, s, n, p)
    case RegisterNode(id, addr, now) => DoRegisterNode(v, s, id, addr, CommandTime(now, clock), clock)
    case Heartbeat(id, addr, now) => DoHeartbeat(v, s, id, addr, CommandTime(now, clock), clock)
    case RemoveNode(id) => DoRemoveNode(v, s, id, clock)
    case AdvanceLiveness(now, suspect, dead, order) =>
      var swept := Sweep(s, order, now, suspect, dead, clock);
      (swept, Swept(swept.revision, SweepChanged(s.nodes, order, now, suspect, dead)))
    case ClaimTask(now) => DoClaim(s, CommandTime(now, clock))
    case CutoverTask(p, t, imported, now) => DoUpdate(s, p, t, CutoverUpdate(imported, CommandTime(now, clock)))
    case CompleteTask(p, t, imported, deleted, now) =>
      DoUpdate(s, p, t, CompleteUpdate(imported, deleted, CommandTime(now, clock)))
    case FailTask(p, t, message, retry, now) => DoUpdate(s, p, t, FailUpdate(message, retry, CommandTime(now, clock)))
    case Unknown => (s, Rejected(UnknownCommand))
  }

  // ---------------------------------------------------------------- export and restore

  datatype Exported = Exported(
    clusterId: Text, revision: nat, namespaces: seq<Namespace>, spaces: seq<Space>, entities: seq<Entity>,
    nodes: seq<Node>, events: seq<Event>, plans: seq<Plan>, nextEvent: nat, nextPlan: nat)

  function Export(s: State): Exported {
    Exported(s.clusterId, s.revision, SortedNamespaces(s.namespaces), SortedSpaces(s.spaces),
             SortedEntities(s.entities), SortedNodes(s.nodes), s.events, s.plans, s.nextEvent, s.nextPlan)
  }

  /** Items filed under their own normalised identity, later ones winning; `None` when some
      item has an invalid identity. */
  function Collect<K, V>(items: seq<V>, keyOf: V -> Option<K>): Option<map<K, V>> {
    if items == [] then Some(map[])
    else
      var last := items[|items| - 1];
      match (Collect(items[..|items| - 1], keyOf), keyOf(last))
      case (Some(m), Some(k)) => Some(m[k := last])
      case _ => None
  }

  function NamespaceKey(v: Validation): Namespace -> Option<Text> { (n: Namespace) => NormalName(v, n.namespace) }

  function SpaceKey(v: Validation): Space -> Option<Scope> { (p: Space) => NormalScope(v, p.namespace, p.space) }

  function EntityKey(v: Validation): Entity -> Option<EntityRef> {
    (e: Entity) => NormalEntity(v, e.namespace, e.space, e.entity)
  }

  function NodeKey(v: Validation): Node -> Option<Text> {
    (n: Node) => if NormalAddr(v, n.addr).Some? then NormalNodeId(v, n.nodeId) else None
  }

  function MaxEventId(events: seq<Event>, current: nat): nat
    decreases events
  {
    if events == [] then current
    else MaxEventId(events[1..], if events[0].id > current then events[0].id else current)
  }

  function MaxPlanId(plans: seq<Plan>, current: nat): nat
    decreases plans
  {
    if plans == [] then current
    else MaxPlanId(plans[1..], if plans[0].id > current then plans[0].id else current)
  }

  function Restore(v: Validation, e: Exported): Option<State> {
    match (Collect(e.namespaces, NamespaceKey(v)), Collect(e.spaces, SpaceKey(v)),
           Collect(e.entities, EntityKey(v)), Collect(e.nodes, NodeKey(v)))
    case (Some(namespaces), Some(spaces), Some(entities), Some(nodes)) =>
      Some(State(e.clusterId, e.revision, namespaces, spaces, entities, nodes, e.events, e.plans,
                 MaxEventId(e.events, e.nextEvent), MaxPlanId(e.plans, e.nextPlan), BaseRoutes(nodes, spaces)))
    case _ => None
  }
}
