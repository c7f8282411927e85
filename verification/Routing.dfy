/** Route tables: building them from nodes and spaces (control/routing.go), overlaying
    outstanding migration tasks (control/migration_routes.go) and selecting a route for a
    key (routing/routing.go). */
module Routing {
  import opened Common
  import opened Slots

  datatype Replica = Replica(nodeId: Text, addr: Text, weight: nat)

  datatype Route = Route(
    namespace: Text, space: Text, vslotStart: nat, vslotEnd: nat,
    nodeId: Text, addr: Text, weight: nat, replicas: seq<Replica>)

  datatype NodeState = Healthy | Suspect | Dead

  datatype Node = Node(nodeId: Text, addr: Text, state: NodeState, lastSeenUnix: int)

  datatype Space = Space(namespace: Text, space: Text, version: nat, createdAtUnix: int)

  datatype TaskState = Planned | Running | Cleanup | Done | Failed

  datatype Task = Task(
    planId: nat, taskId: nat, revision: nat, namespace: Text, space: Text,
    vslotStart: nat, vslotEnd: nat,
    sourceNodeId: Text, sourceAddr: Text, targetNodeId: Text, targetAddr: Text,
    state: TaskState, createdAtUnix: int, startedAtUnix: int, cutoverAtUnix: int, finishedAtUnix: int,
    importedEntries: nat, deletedEntries: nat, attempts: nat, nextRetryUnix: int, error: Text)

  /** The namespace and space a route or a key belongs to. */
  datatype Scope = Scope(namespace: Text, space: Text)

  const WILDCARD := Scope([], [])

  // ---------------------------------------------------------------- building the base table

  function HealthyNodes(nodes: seq<Node>): seq<Node> {
    if nodes == [] then []
    else (if nodes[0].state == Healthy then [nodes[0]] else []) + HealthyNodes(nodes[1..])
  }

  function RouteReplicaLimit(nodeCount: int, replicaCount: int): (limit: nat)
    ensures nodeCount > 0 ==> limit < nodeCount
  {
    if nodeCount <= 1 || replicaCount <= 0 then 0
    else if replicaCount >= nodeCount then nodeCount - 1
    else replicaCount
  }

  const DEFAULT_ROUTE_REPLICA_COUNT := 1

  function RouteReplicas(nodes: seq<Node>, primary: nat, replicaCount: int): seq<Replica>
    requires primary < |nodes|
  {
    seq(RouteReplicaLimit(|nodes|, replicaCount), offset requires offset >= 0 =>
      var node := nodes[(primary + offset + 1) % |nodes|];
      Replica(node.nodeId, node.addr, 1))
  }

  function RouteFor(healthy: seq<Node>, scope: Scope, index: nat): Route
    requires index < |healthy|
  {
    Route(scope.namespace, scope.space, SlotStart(index, |healthy|), SlotEnd(index, |healthy|),
          healthy[index].nodeId, healthy[index].addr, 1,
          RouteReplicas(healthy, index, DEFAULT_ROUTE_REPLICA_COUNT))
  }

  function RoutesForSpace(healthy: seq<Node>, scope: Scope): seq<Route> {
    seq(|healthy|, index requires 0 <= index < |healthy| => RouteFor(healthy, scope, index))
  }

  function ScopeOf(space: Space): Scope { Scope(space.namespace, space.space) }

  function RoutesForSpaces(healthy: seq<Node>, spaces: seq<Space>): seq<Route> {
    if spaces == [] then []
    else RoutesForSpace(healthy, ScopeOf(spaces[0])) + RoutesForSpaces(healthy, spaces[1..])
  }

  function RoutesForNodes(nodes: seq<Node>, spaces: seq<Space>): seq<Route> {
    var healthy := HealthyNodes(nodes);
    if healthy == [] then []
    else if spaces == [] then RoutesForSpace(healthy, WILDCARD)
    else RoutesForSpaces(healthy, spaces)
  }

  method BuildHealthyNodes(nodes: seq<Node>) returns (healthy: seq<Node>)
    ensures healthy == HealthyNodes(nodes)
  {
    healthy := [];
    for i := 0 to |nodes|
      invariant healthy + HealthyNodes(nodes[i..]) == HealthyNodes(nodes)
    {
      if nodes[i].state == Healthy {
        healthy := healthy + [nodes[i]];
      }
    }
  }

  method BuildRoutesForSpace(healthy: seq<Node>, scope: Scope) returns (routes: seq<Route>)
    ensures routes == RoutesForSpace(healthy, scope)
  {
    routes := [];
    for index := 0 to |healthy|
      invariant routes == RoutesForSpace(healthy, scope)[..index]
    {
      routes := routes + [RouteFor(healthy, scope, index)];
    }
  }

  method BuildRoutesForNodes(nodes: seq<Node>, spaces: seq<Space>) returns (routes: seq<Route>)
    ensures routes == RoutesForNodes(nodes, spaces)
  {
    hide HealthyNodes, RoutesForSpace, RoutesForSpaces;
    var healthy := BuildHealthyNodes(nodes);
    if healthy == [] {
      return [];
    }
    if spaces == [] {
      routes := BuildRoutesForSpace(healthy, WILDCARD);
      return;
    }
    routes := BuildRoutesForSpaces(healthy, spaces);
  }

  method BuildRoutesForSpaces(healthy: seq<Node>, spaces: seq<Space>) returns (routes: seq<Route>)
    ensures routes == RoutesForSpaces(healthy, spaces)
  {
    hide RoutesForSpace;
    routes := [];
    for i := 0 to |spaces|
      invariant routes + RoutesForSpaces(healthy, spaces[i..]) == RoutesForSpaces(healthy, spaces)
    {
      assert spaces[i..][1..] == spaces[i + 1..];
      var more := BuildRoutesForSpace(healthy, ScopeOf(spaces[i]));
      routes := routes + more;
    }
  }

  // ---------------------------------------------------------------- overlaying tasks

  predicate RoutesSource(task: Task) {
    task.cutoverAtUnix == 0 && task.state != Done
  }

  function SourceRoute(task: Task): Route {
    Route(task.namespace, task.space, 0, 0, task.sourceNodeId, task.sourceAddr, 1, [])
  }

  function Segment(route: Route, start: int, end: int): seq<Route>
    requires start <= end ==> 0 <= start
  {
    if start > end then [] else [route.(vslotStart := start, vslotEnd := end)]
  }

  /** The pieces that replace one route when `task` is overlaid on it. */
  function OverridePieces(route: Route, task: Task): seq<Route> {
    var start := Max(route.vslotStart, task.vslotStart);
    var end := Min(route.vslotEnd, task.vslotEnd);
    if route.namespace != task.namespace || route.space != task.space || start > end then [route]
    else
      (if route.vslotStart < start then Segment(route, route.vslotStart, start - 1) else [])
      + Segment(SourceRoute(task), start, end)
      + (if end < route.vslotEnd then Segment(route, end + 1, route.vslotEnd) else [])
  }

  function Override(routes: seq<Route>, task: Task): seq<Route> {
    if routes == [] then [] else OverridePieces(routes[0], task) + Override(routes[1..], task)
  }

  function ApplyTasks(routes: seq<Route>, tasks: seq<Task>): seq<Route>
    decreases tasks
  {
    if tasks == [] then routes
    else ApplyTasks(if RoutesSource(tasks[0]) then Override(routes, tasks[0]) else routes, tasks[1..])
  }

  /** The order `sortRoutes` sorts by. */
  predicate RouteLe(a: Route, b: Route) {
    if a.namespace != b.namespace then TextLe(a.namespace, b.namespace)
    else if a.space != b.space then TextLe(a.space, b.space)
    else a.vslotStart <= b.vslotStart
  }

  function EffectiveRoutes(base: seq<Route>, tasks: seq<Task>): seq<Route> {
    Sort(ApplyTasks(base, tasks), RouteLe)
  }

  method OverrideRoute(route: Route, task: Task) returns (pieces: seq<Route>)
    ensures pieces == OverridePieces(route, task)
  {
    var start := Max(route.vslotStart, task.vslotStart);
    var end := Min(route.vslotEnd, task.vslotEnd);
    if route.namespace != task.namespace || route.space != task.space || start > end {
      return [route];
    }
    pieces := [];
    if route.vslotStart < start {
      pieces := pieces + Segment(route, route.vslotStart, start - 1);
    }
    pieces := pieces + Segment(SourceRoute(task), start, end);
    if end < route.vslotEnd {
      pieces := pieces + Segment(route, end + 1, route.vslotEnd);
    }
  }

  method OverrideRouteRange(routes: seq<Route>, task: Task) returns (out: seq<Route>)
    ensures out == Override(routes, task)
  {
    out := [];
    for index := 0 to |routes|
      invariant out + Override(routes[index..], task) == Override(routes, task)
    {
      var pieces := OverrideRoute(routes[index], task);
      assert routes[index..][1..] == routes[index + 1..];
      out := out + pieces;
    }
  }

  method ApplyMigrationRouteOverrides(routes: seq<Route>, plans: seq<seq<Task>>) returns (out: seq<Route>)
    ensures out == EffectiveRoutes(routes, Flatten(plans))
  {
    out := routes;
    for p := 0 to |plans|
      invariant ApplyTasks(out, Flatten(plans[p..])) == ApplyTasks(routes, Flatten(plans))
    {
      assert plans[p..][1..] == plans[p + 1..];
      assert plans[p][0..] == plans[p];
      for t := 0 to |plans[p]|
        invariant ApplyTasks(out, plans[p][t..] + Flatten(plans[p + 1..])) == ApplyTasks(routes, Flatten(plans))
      {
        assert (plans[p][t..] + Flatten(plans[p + 1..]))[1..] == plans[p][t + 1..] + Flatten(plans[p + 1..]);
        if RoutesSource(plans[p][t]) {
          out := OverrideRouteRange(out, plans[p][t]);
        }
      }
      assert plans[p][|plans[p]|..] + Flatten(plans[p + 1..]) == Flatten(plans[p + 1..]);
    }
    out := Sort(out, RouteLe);
  }

  function Flatten<T>(xss: seq<seq<T>>): seq<T> {
    if xss == [] then [] else xss[0] + Flatten(xss[1..])
  }

  // ---------------------------------------------------------------- selecting a route

  predicate ContainsVSlot(route: Route, vslot: nat) {
    if route.vslotStart == 0 && route.vslotEnd == 0 then vslot <= VSLOT_MAX
    else route.vslotStart <= vslot <= route.vslotEnd
  }

  datatype MatchKind = NoRoute | ExactRoute | NamespaceRoute | WildcardRoute

  function RouteMatch(route: Route, scope: Scope): MatchKind {
    if route.namespace == scope.namespace && route.space == scope.space then ExactRoute
    else if route.namespace == scope.namespace && route.space == [] then NamespaceRoute
    else if route.namespace == [] && route.space == [] then WildcardRoute
    else NoRoute
  }

  predicate Selectable(route: Route, vslot: nat) {
    route.addr != [] && ContainsVSlot(route, vslot)
  }

  /** The first selectable route of the given kind. */
  function FirstMatch(routes: seq<Route>, scope: Scope, vslot: nat, kind: MatchKind): Option<Route> {
    if routes == [] then None
    else if Selectable(routes[0], vslot) && RouteMatch(routes[0], scope) == kind then Some(routes[0])
    else FirstMatch(routes[1..], scope, vslot, kind)
  }

  function OrElse<T>(a: Option<T>, b: Option<T>): Option<T> { if a.Some? then a else b }

  function SelectSpec(routes: seq<Route>, scope: Scope, vslot: nat): Option<Route> {
    OrElse(FirstMatch(routes, scope, vslot, ExactRoute),
           OrElse(FirstMatch(routes, scope, vslot, NamespaceRoute),
                  FirstMatch(routes, scope, vslot, WildcardRoute)))
  }

  /** `routing.Select` for a key whose slot is `vslot`. */
  method Select(routes: seq<Route>, scope: Scope, vslot: nat) returns (selected: Option<Route>)
    ensures selected == SelectSpec(routes, scope, vslot)
  {
    var namespaceMatch: Option<Route> := None;
    var wildcard: Option<Route> := None;
    for index := 0 to |routes|
      invariant FirstMatch(routes[index..], scope, vslot, ExactRoute) == FirstMatch(routes, scope, vslot, ExactRoute)
      invariant OrElse(namespaceMatch, FirstMatch(routes[index..], scope, vslot, NamespaceRoute))
             == FirstMatch(routes, scope, vslot, NamespaceRoute)
      invariant OrElse(wildcard, FirstMatch(routes[index..], scope, vslot, WildcardRoute))
             == FirstMatch(routes, scope, vslot, WildcardRoute)
    {
      var route := routes[index];
      if Selectable(route, vslot) {
        match RouteMatch(route, scope)
        case ExactRoute => return Some(route);
        case NamespaceRoute => namespaceMatch := OrElse(namespaceMatch, Some(route));
        case WildcardRoute => wildcard := OrElse(wildcard, Some(route));
        case NoRoute =>
      }
    }
    selected := OrElse(namespaceMatch, wildcard);
  }
}
