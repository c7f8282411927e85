/** What a membership change does to traffic: which slots keep the node that serves them. */
module ControlTraffic {
  import opened Common
  import opened Slots
  import opened Routing
  import opened RoutingLaws
  import opened Rebalance
  import opened ControlModel
  import opened ControlLaws
  import opened ControlRouting

  // ---------------------------------------------------------------- laws of the overlay owner

  lemma {:induction false} OverlayOwnerConcat(base: Route, a: seq<Task>, b: seq<Task>, scope: Scope, vslot: nat)
    ensures OverlayOwner(base, a + b, scope, vslot) == OverlayOwner(OverlayOwner(base, a, scope, vslot), b, scope, vslot)
    decreases a
  {
    if a == [] {
      assert a + b == b;
    } else {
      assert (a + b)[1..] == a[1..] + b;
      OverlayOwnerConcat(if Diverts(a[0], scope, vslot) then SourceRoute(a[0]) else base, a[1..], b, scope, vslot);
    }
  }

  lemma {:induction false} OverlayOwnerRenumbered(base: Route, a: seq<Task>, b: seq<Task>, scope: Scope, vslot: nat)
    requires |a| == |b|
    requires forall k :: 0 <= k < |a| ==> a[k] == b[k].(planId := a[k].planId, taskId := a[k].taskId)
    ensures OverlayOwner(base, a, scope, vslot) == OverlayOwner(base, b, scope, vslot)
    decreases a
  {
    if a != [] {
      OverlayOwnerRenumbered(if Diverts(b[0], scope, vslot) then SourceRoute(b[0]) else base, a[1..], b[1..], scope, vslot);
    }
  }

  /** The same tasks over owners on the same node give owners on the same node. */
  lemma {:induction false} OverlayOwnerNode(a: Route, b: Route, tasks: seq<Task>, scope: Scope, vslot: nat)
    requires a.nodeId == b.nodeId
    ensures OverlayOwner(a, tasks, scope, vslot).nodeId == OverlayOwner(b, tasks, scope, vslot).nodeId
    decreases tasks
  {
    if tasks != [] {
      var diverts := Diverts(tasks[0], scope, vslot);
      OverlayOwnerNode(if diverts then SourceRoute(tasks[0]) else a, if diverts then SourceRoute(tasks[0]) else b, tasks[1..], scope, vslot);
    }
  }

  ghost predicate Finished(tasks: seq<Task>) { forall k :: 0 <= k < |tasks| ==> !RoutesSource(tasks[k]) }

  lemma {:induction false} OverlayFinished(base: Route, tasks: seq<Task>, scope: Scope, vslot: nat)
    requires Finished(tasks)
    ensures OverlayOwner(base, tasks, scope, vslot) == base
  {
    if tasks != [] { OverlayFinished(base, tasks[1..], scope, vslot); }
  }

  // ---------------------------------------------------------------- the tasks a record leaves

  lemma {:induction false} FlattenSnoc(plans: seq<Plan>, plan: Plan)
    ensures AllTasks(plans + [plan]) == AllTasks(plans) + plan.tasks
  {
    if plans == [] {
      assert PlanTasks([plan])[1..] == [];
      assert plans + [plan] == [plan];
    } else {
      FlattenSnoc(plans[1..], plan);
      assert (plans + [plan])[1..] == plans[1..] + [plan];
      assert PlanTasks(plans + [plan])[1..] == PlanTasks(plans[1..] + [plan]);
      assert PlanTasks(plans)[1..] == PlanTasks(plans[1..]);
    }
  }

  lemma FlattenCons(plans: seq<Plan>)
    requires plans != []
    ensures AllTasks(plans) == plans[0].tasks + AllTasks(plans[1..])
  {
    assert PlanTasks(plans)[1..] == PlanTasks(plans[1..]);
  }

  /** The earlier plans that are left when another one is recorded. */
  function Surviving(plans: seq<Plan>): seq<Plan> {
    if |plans| >= MAX_MIGRATION_PLANS then plans[|plans| - MAX_MIGRATION_PLANS + 1..] else plans
  }

  /** The tasks of the state, followed by the new ones; a full plan list loses its oldest plan. */
  lemma RecordedTasks(s: State, reason: Reason, subject: Subject, now: int)
    ensures
      var tasks := BuildTasks(s.revision, now, s.lastRoutes, BaseRoutes(s.nodes, s.spaces));
      var t := RecordEvent(s, reason, subject, now);
      && AllTasks(t.plans) == (if tasks == [] then AllTasks(s.plans) else AllTasks(Surviving(s.plans)) + Number(tasks, s.nextPlan + 1))
      && t.nextPlan == s.nextPlan + if tasks == [] then 0 else 1
  {
    hide BaseRoutes, BuildTasks, AllTasks, KeepLast;
    var tasks := BuildTasks(s.revision, now, s.lastRoutes, BaseRoutes(s.nodes, s.spaces));
    if tasks != [] {
      var plan := Plan(s.nextPlan + 1, s.revision, reason, Planned, now, Number(tasks, s.nextPlan + 1));
      KeepLastIs(s.plans + [plan], MAX_MIGRATION_PLANS);
      assert KeepLast(s.plans + [plan], MAX_MIGRATION_PLANS) == Surviving(s.plans) + [plan];
      FlattenSnoc(Surviving(s.plans), plan);
    }
  }

  /** Nothing outstanding is lost when the oldest plan makes room. */
  ghost predicate KeepsOutstanding(plans: seq<Plan>) {
    |plans| < MAX_MIGRATION_PLANS || Finished(plans[0].tasks)
  }

  lemma SurvivingOwner(base: Route, plans: seq<Plan>, scope: Scope, vslot: nat)
    requires KeepsOutstanding(plans) && |plans| <= MAX_MIGRATION_PLANS
    ensures OverlayOwner(base, AllTasks(Surviving(plans)), scope, vslot) == OverlayOwner(base, AllTasks(plans), scope, vslot)
  {
    hide AllTasks, OverlayOwner;
    if |plans| == MAX_MIGRATION_PLANS {
      FlattenCons(plans);
      OverlayOwnerConcat(base, plans[0].tasks, AllTasks(plans[1..]), scope, vslot);
      OverlayFinished(base, plans[0].tasks, scope, vslot);
    }
  }

  lemma LeftOwner(s: State, t: State, base: Route, scope: Scope, vslot: nat)
    requires |s.plans| <= MAX_MIGRATION_PLANS
    ensures KeepsOutstanding(s.plans) ==>
              OverlayOwner(base, AllTasks(Left(s, t)), scope, vslot) == OverlayOwner(base, AllTasks(s.plans), scope, vslot)
  {
    hide AllTasks, OverlayOwner, KeepsOutstanding, Surviving;
    if KeepsOutstanding(s.plans) { SurvivingOwner(base, s.plans, scope, vslot); }
  }

  /** The earlier plans that are still there after a change from `s` to `t`. */
  function Left(s: State, t: State): seq<Plan> { if t.nextPlan == s.nextPlan then s.plans else Surviving(s.plans) }

  /** Who serves a slot once a plan for the change from `was` to `becomes` is recorded. */
  lemma RecordedOwner(s: State, reason: Reason, subject: Subject, now: int, scope: Scope, vslot: nat, was: Route, becomes: Route)
    requires scope != WILDCARD
    requires Owners(s.lastRoutes, scope, vslot) == [was] && Owners(BaseRoutes(s.nodes, s.spaces), scope, vslot) == [becomes]
    ensures
      var t := RecordEvent(s, reason, subject, now);
      OverlayOwner(becomes, AllTasks(t.plans), scope, vslot).nodeId
        == if was.nodeId != becomes.nodeId then was.nodeId else OverlayOwner(was, AllTasks(Left(s, t)), scope, vslot).nodeId
  {
    hide BaseRoutes, BuildTasks, AllTasks, OverlayOwner, Owners, RecordEvent, ApplyTasks, Surviving;
    var current := BaseRoutes(s.nodes, s.spaces);
    var tasks := BuildTasks(s.revision, now, s.lastRoutes, current);
    var t := RecordEvent(s, reason, subject, now);
    var kept := OverlayOwner(becomes, AllTasks(Left(s, t)), scope, vslot);
    if was.nodeId == becomes.nodeId { OverlayOwnerNode(was, becomes, AllTasks(Left(s, t)), scope, vslot); }
    RecordedTasks(s, reason, subject, now);
    NewTasksOwner(s.revision, now, s.lastRoutes, current, scope, vslot, was, becomes, kept);
    if tasks != [] {
      OverlayOwnerConcat(becomes, AllTasks(Surviving(s.plans)), Number(tasks, s.nextPlan + 1), scope, vslot);
      OverlayOwnerRenumbered(kept, Number(tasks, s.nextPlan + 1), tasks, scope, vslot);
    }
  }

  /** The new tasks give a slot that changes hands back to its old owner and leave others alone. */
  lemma NewTasksOwner(revision: nat, now: int, previous: seq<Route>, current: seq<Route>, scope: Scope, vslot: nat, was: Route, becomes: Route,
                      over: Route)
    requires scope != WILDCARD && Owners(previous, scope, vslot) == [was] && Owners(current, scope, vslot) == [becomes]
    ensures
      var tasks := BuildTasks(revision, now, previous, current);
      && OverlayOwner(over, tasks, scope, vslot).nodeId == (if was.nodeId != becomes.nodeId then was else over).nodeId
      && (tasks == [] ==> was.nodeId == becomes.nodeId)
  {
    hide BuildTasks, Owners, OverlayOwner;
    var tasks := BuildTasks(revision, now, previous, current);
    TableMoves(revision, now, previous, current, scope, vslot);
    var moves := if was.nodeId == becomes.nodeId then []
                 else [Move(was.nodeId, was.addr, becomes.nodeId, becomes.addr)];
    assert CrossMoves([was], [becomes]) == MovesTo([was], becomes) == moves;
    BuiltTasksFresh(revision, now, previous, current);
    OverlayOfMoves(over, tasks, scope, vslot);
  }

  // ---------------------------------------------------------------- published owners

  /** Between one and 65536 nodes are healthy: every slot can be served. */
  ghost predicate Served(nodes: map<Text, Node>) { 1 <= |HealthyIds(nodes)| <= VSLOT_COUNT }

  /** The base table gives the slot to `base`, and the published one to `owner`. */
  ghost predicate Serves(s: State, scope: Scope, vslot: nat, base: Route, owner: Route) {
    Owners(s.lastRoutes, scope, vslot) == [base] && Owners(Publish(s).routes, scope, vslot) == [owner]
  }

  lemma PublishedOwner(v: Validation, s: State, scope: Scope, vslot: nat) returns (base: Route, i: nat)
    requires Inv(v, s) && Served(s.nodes) && scope in s.spaces && vslot <= VSLOT_MAX
    ensures Serves(s, scope, vslot, base, OverlayOwner(base, AllTasks(s.plans), scope, vslot)) && scope != WILDCARD
    ensures
      var healthy := HealthyNodes(SortedNodes(s.nodes));
      i < |healthy| <= VSLOT_COUNT && SoleOwner(i, |healthy|, vslot) && base.nodeId == healthy[i].nodeId
  {
    hide Owners, RoutesForNodes, EffectiveRoutes, SortedNodes, SortedSpaces, SortedNamespaces, SortedEntities, Filed, Counted, AllTasks;
    HealthyCount(s.nodes);
    SortedScopes(v, s);
    i := EffectiveOwner(SortedNodes(s.nodes), SortedSpaces(s.spaces), AllTasks(s.plans), scope, vslot);
    var j := BaseOwner(SortedNodes(s.nodes), SortedSpaces(s.spaces), scope, vslot);
    var healthy := HealthyNodes(SortedNodes(s.nodes));
    SameSoleOwner(i, j, |healthy|, vslot);
    base := Endpoint(RouteFor(healthy, scope, i));
  }

  lemma SameSoleOwner(i: nat, j: nat, n: nat, vslot: nat)
    requires n > 0 && SoleOwner(i, n, vslot) && SoleOwner(j, n, vslot)
    ensures i == j
  {
  }

  // ---------------------------------------------------------------- changes of membership

  /** `t` records one change of nodes or spaces of `s`. */
  ghost predicate Records(s: State, changed: State, t: State, reason: Reason, subject: Subject, now: int) {
    && t == RecordEvent(changed, reason, subject, now)
    && changed.plans == s.plans && changed.nextPlan == s.nextPlan && changed.lastRoutes == s.lastRoutes && changed.spaces.Keys >= s.spaces.Keys
  }

  /** A slot keeps its node across a change exactly when its base owner stays on the same node or
      the slot was served by its base owner: a slot whose base owner moves while an outstanding
      task still sends it elsewhere changes hands at once. Should the change drop an old plan whose
      tasks are outstanding, a slot whose base owner stays keeps its node exactly when the tasks
      left send it to the same one. */
  ghost predicate MovesExactly(s: State, t: State, scope: Scope, vslot: nat, was: Route, becomes: Route, before: Route, after: Route) {
    && Serves(s, scope, vslot, was, before) && Serves(t, scope, vslot, becomes, after)
    && (KeepsOutstanding(s.plans) ==> (after.nodeId == before.nodeId <==> was.nodeId == becomes.nodeId || before.nodeId == was.nodeId))
    && (was.nodeId == becomes.nodeId ==> after.nodeId == OverlayOwner(was, AllTasks(Left(s, t)), scope, vslot).nodeId)
    && (was.nodeId != becomes.nodeId ==> after.nodeId == was.nodeId)
  }

  lemma RecordingMovesTraffic(v: Validation, s: State, changed: State, t: State, reason: Reason, subject: Subject, now: int, scope: Scope, vslot: nat)
    returns (was: Route, becomes: Route, before: Route, after: Route)
    requires Inv(v, s) && Inv(v, t) && Served(s.nodes) && Served(t.nodes) && scope in s.spaces && vslot <= VSLOT_MAX
    requires Records(s, changed, t, reason, subject, now)
    ensures MovesExactly(s, t, scope, vslot, was, becomes, before, after)
    ensures before == OverlayOwner(was, AllTasks(s.plans), scope, vslot)
  {
    RecordFields(changed, reason, subject, now);
    hide BaseRoutes, AllTasks, Owners, RecordEvent, KeepsOutstanding, OverlayOwner, Filed, Publish, Served, SoleOwner, HealthyNodes, SortedNodes;
    var i, j;
    was, i := PublishedOwner(v, s, scope, vslot);
    becomes, j := PublishedOwner(v, t, scope, vslot);
    before := OverlayOwner(was, AllTasks(s.plans), scope, vslot);
    after := OverlayOwner(becomes, AllTasks(t.plans), scope, vslot);
    RecordedOwner(changed, reason, subject, now, scope, vslot, was, becomes);
    LeftOwner(s, t, was, scope, vslot);
  }

  /** The commands that change who the nodes are or which spaces exist; a liveness sweep is a
      sequence of such changes. */
  predicate Membership(c: Command) { c.CreateSpace? || c.RegisterNode? || c.Heartbeat? || c.RemoveNode? }

  lemma MembershipRecords(v: Validation, s: State, c: Command, clock: int) returns (changed: State, reason: Reason, subject: Subject)
    requires Membership(c)
    ensures
      var t := Step(v, s, c, clock).0;
      t.revision != s.revision ==> Records(s, changed, t, reason, subject, clock)
    ensures
      var t := Step(v, s, c, clock).0;
      t.revision == s.revision ==> t.plans == s.plans && t.nextPlan == s.nextPlan && t.lastRoutes == s.lastRoutes
  {
    hide RecordEvent, BaseRoutes, NormalScope, NormalNodeId, NormalAddr, DoRegisterNode, DoHeartbeat;
    changed, reason, subject := s, NodeRemoved, AboutSpace(WILDCARD);
    match c
    case CreateSpace(n, p) =>
      var named := NormalScope(v, n, p);
      if named.Some? {
        var scope := named.value;
        changed := s.(revision := s.revision + 1, spaces := s.spaces[scope := Space(scope.namespace, scope.space, 1, clock)]);
        reason, subject := SpaceCreated, AboutSpace(scope);
        RecordFields(changed, reason, subject, clock);
      }
    case RemoveNode(nodeId) =>
      var named := NormalNodeId(v, nodeId);
      if named.Some? && named.value in s.nodes {
        changed := s.(revision := s.revision + 1, nodes := s.nodes - {named.value});
        reason, subject := NodeRemoved, AboutNode(s.nodes[named.value]);
        RecordFields(changed, reason, subject, clock);
      }
    case RegisterNode(nodeId, addr, now) =>
      changed, reason, subject := RegisterRecords(v, s, nodeId, addr, CommandTime(now, clock), clock);
    case Heartbeat(nodeId, addr, now) =>
      changed, reason, subject := HeartbeatRecords(v, s, nodeId, addr, CommandTime(now, clock), clock);
  }

  lemma RegisterRecords(v: Validation, s: State, nodeId: Text, addr: Text, now: int, clock: int)
    returns (changed: State, reason: Reason, subject: Subject)
    ensures
      var t := DoRegisterNode(v, s, nodeId, addr, now, clock).0;
      if t.revision != s.revision then Records(s, changed, t, reason, subject, clock) else t.plans == s.plans && t.nextPlan == s.nextPlan && t.lastRoutes == s.lastRoutes
  {
    hide RecordEvent, BaseRoutes, NormalNodeId, NormalAddr;
    changed, reason, subject := s, NodeRegistered, AboutSpace(WILDCARD);
    if NormalNodeId(v, nodeId).Some? && NormalAddr(v, addr).Some? {
      var id, at := NormalNodeId(v, nodeId).value, NormalAddr(v, addr).value;
      var node := Node(id, at, Healthy, now);
      changed, subject := s.(revision := s.revision + 1, nodes := s.nodes[id := node]), AboutNode(node);
      reason := if id !in s.nodes then NodeRegistered else if s.nodes[id].addr != at then NodeAddress else NodeRecovered;
      RecordFields(changed, reason, subject, clock);
    }
  }

  lemma HeartbeatRecords(v: Validation, s: State, nodeId: Text, addr: Text, now: int, clock: int)
    returns (changed: State, reason: Reason, subject: Subject)
    ensures
      var t := DoHeartbeat(v, s, nodeId, addr, now, clock).0;
      if t.revision != s.revision then Records(s, changed, t, reason, subject, clock) else t.plans == s.plans && t.nextPlan == s.nextPlan && t.lastRoutes == s.lastRoutes
  {
    hide RecordEvent, BaseRoutes, NormalNodeId, NormalAddr;
    changed, reason, subject := s, NodeRegistered, AboutSpace(WILDCARD);
    if NormalNodeId(v, nodeId).Some? && NormalAddr(v, addr).Some? {
      var id, at := NormalNodeId(v, nodeId).value, NormalAddr(v, addr).value;
      var node := Node(id, at, Healthy, now);
      var known := id in s.nodes;
      var moved, recovered := known && s.nodes[id].addr != at, known && s.nodes[id].state != Healthy;
      changed := s.(revision := s.revision + Bit(!known) + Bit(moved) + Bit(recovered), nodes := s.nodes[id := node]);
      reason, subject := if recovered then NodeRecovered else if moved then NodeAddress else NodeRegistered, AboutNode(node);
      RecordFields(changed, reason, subject, clock);
    }
  }

  /** A membership command of any state that satisfies the invariant. */
  lemma StepMovesTraffic(v: Validation, s: State, c: Command, clock: int, scope: Scope, vslot: nat)
    returns (was: Route, becomes: Route, before: Route, after: Route)
    requires Lawful(v) && Inv(v, s) && Membership(c) && scope in s.spaces && vslot <= VSLOT_MAX
    requires Served(s.nodes) && Served(Step(v, s, c, clock).0.nodes)
    ensures MovesExactly(s, Step(v, s, c, clock).0, scope, vslot, was, becomes, before, after)
    ensures before == OverlayOwner(was, AllTasks(s.plans), scope, vslot)
  {
    hide Inv, Step, Membership, KeepsOutstanding, AllTasks, Served, OverlayOwner, Records, Owners, Publish;
    var t := Step(v, s, c, clock).0;
    StepKeepsInv(v, s, c, clock);
    var changed, reason, subject := MembershipRecords(v, s, c, clock);
    if t.revision != s.revision {
      was, becomes, before, after := RecordingMovesTraffic(v, s, changed, t, reason, subject, clock, scope, vslot);
    } else {
      StepNamesContent(v, s, c, clock);
      var i;
      was, i := PublishedOwner(v, s, scope, vslot);
      before := OverlayOwner(was, AllTasks(s.plans), scope, vslot);
      becomes, after := was, before;
    }
  }

  /** The change a membership command makes in a reachable state moves exactly the slots whose
      base owner changes while an outstanding task still sends them to another node. */
  lemma MembershipMovesTraffic(v: Validation, clusterId: Text, commands: seq<Timed>, c: Command, clock: int, scope: Scope, vslot: nat)
    returns (was: Route, becomes: Route, before: Route, after: Route)
    requires Lawful(v) && Membership(c) && vslot <= VSLOT_MAX
    requires
      var s := Run(v, Init(clusterId), commands);
      scope in s.spaces && Served(s.nodes) && Served(Step(v, s, c, clock).0.nodes)
    ensures
      var s := Run(v, Init(clusterId), commands);
      MovesExactly(s, Step(v, s, c, clock).0, scope, vslot, was, becomes, before, after)
  {
    hide Inv, Step, Membership, KeepsOutstanding, Served, MovesExactly;
    var s := Run(v, Init(clusterId), commands);
    InitInv(v, clusterId);
    RunKeepsInv(v, Init(clusterId), commands);
    was, becomes, before, after := StepMovesTraffic(v, s, c, clock, scope, vslot);
  }

  ghost predicate FinishedPlans(plans: seq<Plan>) {
    forall p :: 0 <= p < |plans| ==> Finished(plans[p].tasks)
  }

  lemma {:induction false} FlattenFinished(plans: seq<Plan>)
    requires FinishedPlans(plans)
    ensures Finished(AllTasks(plans))
  {
    if plans != [] {
      FlattenFinished(plans[1..]);
      FlattenCons(plans);
      assert Finished(plans[0].tasks);
    }
  }

  /** With no task outstanding, no slot of a reachable state changes hands by a membership command. */
  lemma MembershipMovesNoTraffic(v: Validation, s: State, c: Command, clock: int, scope: Scope, vslot: nat)
    returns (was: Route, becomes: Route, before: Route, after: Route)
    requires Lawful(v) && Inv(v, s) && Membership(c) && FinishedPlans(s.plans) && scope in s.spaces && vslot <= VSLOT_MAX
    requires Served(s.nodes) && Served(Step(v, s, c, clock).0.nodes)
    ensures MovesExactly(s, Step(v, s, c, clock).0, scope, vslot, was, becomes, before, after)
    ensures before == was && after.nodeId == before.nodeId
  {
    hide Inv, Step, Membership, AllTasks, Served, OverlayOwner, Owners, Publish, Serves;
    was, becomes, before, after := StepMovesTraffic(v, s, c, clock, scope, vslot);
    FlattenFinished(s.plans);
    OverlayFinished(was, AllTasks(s.plans), scope, vslot);
  }

  /** One visit of a liveness sweep. */
  lemma VisitMovesTraffic(v: Validation, s: State, id: Text, now: int, suspectAfterMs: int, deadAfterMs: int, clock: int, scope: Scope, vslot: nat)
    returns (was: Route, becomes: Route, before: Route, after: Route)
    requires Inv(v, s) && scope in s.spaces && vslot <= VSLOT_MAX
    requires Served(s.nodes) && Served(SweepNode(s, id, now, suspectAfterMs, deadAfterMs, clock).nodes)
    ensures MovesExactly(s, SweepNode(s, id, now, suspectAfterMs, deadAfterMs, clock), scope, vslot, was, becomes, before, after)
  {
    hide Inv, RecordEvent, KeepsOutstanding, AllTasks, Served, OverlayOwner, Owners, Publish, NextNodeState;
    var t := SweepNode(s, id, now, suspectAfterMs, deadAfterMs, clock);
    SweepNodeKeeps(v, s, id, now, suspectAfterMs, deadAfterMs, clock);
    if t == s {
      var i;
      was, i := PublishedOwner(v, s, scope, vslot);
      before := OverlayOwner(was, AllTasks(s.plans), scope, vslot);
      becomes, after := was, before;
    } else {
      var next := NextNodeState(s.nodes[id], now, suspectAfterMs, deadAfterMs);
      var node := s.nodes[id].(state := next);
      var changed := s.(revision := s.revision + 1, nodes := s.nodes[id := node]);
      was, becomes, before, after :=
        RecordingMovesTraffic(v, s, changed, t, LivenessReason(next), AboutNode(node), clock, scope, vslot);
    }
  }

  // ---------------------------------------------------------------- two joins in a row

  /** The healthy node with the largest identity comes last. */
  lemma LastHealthy(nodes: map<Text, Node>, id: Text)
    requires id in nodes && nodes[id].state == Healthy && forall k :: k in nodes ==> TextLe(k, id)
    ensures
      var healthy := HealthyNodes(SortedNodes(nodes));
      healthy != [] && healthy[|healthy| - 1] == nodes[id]
  {
    hide TextLe, TotalOrder, HealthyNodes;
    TextOrder();
    LastOfSorted(nodes.Keys, TextLe, id);
    LastOfHealthy(SortedNodes(nodes));
  }

  lemma LastOfSorted<K(!new)>(s: set<K>, le: (K, K) -> bool, top: K)
    requires TotalOrder(le) && top in s && forall k :: k in s ==> le(k, top)
    ensures SortSet(s, le) != [] && SortSet(s, le)[|s| - 1] == top
  {
    var keys := SortSet(s, le);
    var i :| 0 <= i < |keys| && keys[i] == top;
    var last := keys[|keys| - 1];
    assert last in keys;
    assert le(last, top) && le(top, last);
  }

  lemma {:induction false} LastOfHealthy(nodes: seq<Node>)
    requires nodes != [] && nodes[|nodes| - 1].state == Healthy
    ensures
      var healthy := HealthyNodes(nodes);
      healthy != [] && healthy[|healthy| - 1] == nodes[|nodes| - 1]
  {
    if |nodes| > 1 { LastOfHealthy(nodes[1..]); }
  }

  lemma {:induction false} HealthyAreListed(nodes: seq<Node>)
    ensures forall i :: 0 <= i < |HealthyNodes(nodes)| ==> HealthyNodes(nodes)[i] in nodes
  {
    if nodes != [] { HealthyAreListed(nodes[1..]); }
  }

  lemma OwnerIsMember(v: Validation, s: State, i: nat)
    requires Inv(v, s) && i < |HealthyNodes(SortedNodes(s.nodes))|
    ensures HealthyNodes(SortedNodes(s.nodes))[i].nodeId in s.nodes
  {
    hide Inv, SortedNodes, HealthyNodes;
    var node := HealthyNodes(SortedNodes(s.nodes))[i];
    HealthyAreListed(SortedNodes(s.nodes));
    assert node in SortedNodes(s.nodes);
    var j :| 0 <= j < |SortedNodes(s.nodes)| && SortedNodes(s.nodes)[j] == node;
    var id := ListedAt(s.nodes, j);
    FiledId(v, s, id);
  }

  lemma ListedAt(nodes: map<Text, Node>, j: nat) returns (id: Text)
    requires j < |SortedNodes(nodes)|
    ensures id in nodes && SortedNodes(nodes)[j] == nodes[id]
  {
    hide TextLe, TotalOrder;
    TextOrder();
    var keys := SortSet(nodes.Keys, TextLe);
    id := keys[j];
    assert keys[j] in keys;
  }

  /** Joining, twice, a node with the largest identity while nothing was outstanding before: the
      last slot first stays with the node that holds its entries, and the second join hands it to
      the first joiner, whose import has not happened. */
  lemma SecondJoinMovesTraffic(v: Validation, s: State, first: Text, firstAddr: Text, second: Text, secondAddr: Text, now: int, clock: int,
                               scope: Scope)
    returns (before: Route, between: Route, after: Route)
    requires Lawful(v) && Inv(v, s) && FinishedPlans(s.plans) && scope in s.spaces && 1 <= |HealthyIds(s.nodes)| <= VSLOT_COUNT - 2
    requires Joins(v, s.nodes, first, firstAddr) && Joins(v, s.nodes, second, secondAddr) && first != second && TextLe(first, second)
    ensures
      var t := Step(v, s, RegisterNode(first, firstAddr, now), clock).0;
      var u := Step(v, t, RegisterNode(second, secondAddr, now), clock).0;
      && Owners(Publish(s).routes, scope, VSLOT_MAX) == [before]
      && Owners(Publish(t).routes, scope, VSLOT_MAX) == [between]
      && Owners(Publish(u).routes, scope, VSLOT_MAX) == [after]
      && between.nodeId == before.nodeId && after.nodeId == first != before.nodeId
  {
    JoinsNext(v, s.nodes, first, firstAddr, Node(first, firstAddr, Healthy, CommandTime(now, clock)), second, secondAddr);
    hide Inv, Step, Owners, Publish, HealthyIds, TextLe, Joins, FinishedPlans, KeepsOutstanding, CommandTime;
    var t := Step(v, s, RegisterNode(first, firstAddr, now), clock).0;
    Joined(v, s, first, firstAddr, now, clock);
    before, between := FirstJoin(v, s, first, firstAddr, now, clock, scope);
    after := NextJoin(v, t, first, second, secondAddr, now, clock, scope, between);
  }

  lemma FirstJoin(v: Validation, s: State, id: Text, addr: Text, now: int, clock: int, scope: Scope) returns (before: Route, after: Route)
    requires Lawful(v) && Inv(v, s) && FinishedPlans(s.plans) && scope in s.spaces && 1 <= |HealthyIds(s.nodes)| < VSLOT_COUNT
    requires Joins(v, s.nodes, id, addr)
    ensures
      var t := Step(v, s, RegisterNode(id, addr, now), clock).0;
      && Owners(Publish(s).routes, scope, VSLOT_MAX) == [before] && Owners(Publish(t).routes, scope, VSLOT_MAX) == [after]
      && after.nodeId == before.nodeId != id
  {
    hide Inv, Step, Owners, Publish, HealthyIds, OverlayOwner, AllTasks, FinishedPlans, TextLe, SoleOwner;
    Joined(v, s, id, addr, now, clock);
    var base, i := PublishedOwner(v, s, scope, VSLOT_MAX);
    OwnerIsMember(v, s, i);
    var was, becomes;
    was, becomes, before, after := MembershipMovesNoTraffic(v, s, RegisterNode(id, addr, now), clock, scope, VSLOT_MAX);
  }

  /** The last slot goes to the node that joined last before, wherever it was served. */
  lemma NextJoin(v: Validation, s: State, last: Text, id: Text, addr: Text, now: int, clock: int, scope: Scope, before: Route) returns (after: Route)
    requires Lawful(v) && Inv(v, s) && KeepsOutstanding(s.plans) && scope in s.spaces && 1 <= |HealthyIds(s.nodes)| < VSLOT_COUNT
    requires last in s.nodes && s.nodes[last].state == Healthy && forall k :: k in s.nodes ==> TextLe(k, last)
    requires Joins(v, s.nodes, id, addr) && Owners(Publish(s).routes, scope, VSLOT_MAX) == [before]
    ensures
      var t := Step(v, s, RegisterNode(id, addr, now), clock).0;
      Owners(Publish(t).routes, scope, VSLOT_MAX) == [after] && after.nodeId == last
  {
    hide Inv, Step, Owners, Publish, HealthyIds, OverlayOwner, AllTasks, KeepsOutstanding, TextLe;
    Joined(v, s, id, addr, now, clock);
    var t := Step(v, s, RegisterNode(id, addr, now), clock).0;
    var was := LastSlotOwner(v, s, last, scope, VSLOT_MAX);
    LargestId(s.nodes, id, t.nodes[id]);
    var becomes := LastSlotOwner(v, t, id, scope, VSLOT_MAX);
    var was2, becomes2, before2;
    was2, becomes2, before2, after := StepMovesTraffic(v, s, RegisterNode(id, addr, now), clock, scope, VSLOT_MAX);
  }

  lemma JoinsNext(v: Validation, nodes: map<Text, Node>, id: Text, addr: Text, node: Node, next: Text, nextAddr: Text)
    requires Joins(v, nodes, id, addr) && Joins(v, nodes, next, nextAddr) && id != next && TextLe(id, next)
    ensures Joins(v, nodes[id := node], next, nextAddr) && forall k :: k in nodes[id := node] ==> TextLe(k, id)
  {
    hide TextLe;
    LargestId(nodes, id, node);
  }

  lemma LargestId(nodes: map<Text, Node>, id: Text, node: Node)
    requires forall k :: k in nodes ==> TextLe(k, id)
    ensures forall k :: k in nodes[id := node] ==> TextLe(k, id)
  {
    TextOrder();
  }

  /** The identity and address are as they are stored, and no known node's identity is as large. */
  ghost predicate Joins(v: Validation, nodes: map<Text, Node>, id: Text, addr: Text) {
    && NormalNodeId(v, id) == Some(id) && NormalAddr(v, addr) == Some(addr)
    && forall k :: k in nodes ==> k != id && TextLe(k, id)
  }

  lemma Joined(v: Validation, s: State, id: Text, addr: Text, now: int, clock: int)
    requires Lawful(v) && Inv(v, s) && Joins(v, s.nodes, id, addr)
    requires 1 <= |HealthyIds(s.nodes)| < VSLOT_COUNT
    ensures
      var t := Step(v, s, RegisterNode(id, addr, now), clock).0;
      && Inv(v, t) && t.nodes == s.nodes[id := Node(id, addr, Healthy, CommandTime(now, clock))] && t.spaces == s.spaces
      && |HealthyIds(t.nodes)| == |HealthyIds(s.nodes)| + 1
      && (FinishedPlans(s.plans) ==> KeepsOutstanding(t.plans))
  {
    hide Inv, BaseRoutes, RecordEvent, TextLe, FinishedPlans, KeepsOutstanding;
    StepKeepsInv(v, s, RegisterNode(id, addr, now), clock);
    var node := Node(id, addr, Healthy, CommandTime(now, clock));
    var changed := s.(revision := s.revision + 1, nodes := s.nodes[id := node]);
    RecordFields(changed, NodeRegistered, AboutNode(node), clock);
    assert HealthyIds(changed.nodes) == HealthyIds(s.nodes) + {id};
    if FinishedPlans(s.plans) { RoomAfterFinished(changed, NodeRegistered, AboutNode(node), clock); }
  }

  /** Recording over finished plans leaves room for one more record. */
  lemma RoomAfterFinished(s: State, reason: Reason, subject: Subject, now: int)
    requires FinishedPlans(s.plans)
    ensures KeepsOutstanding(RecordEvent(s, reason, subject, now).plans)
  {
    hide BaseRoutes, BuildTasks, KeepLast, Finished;
    var tasks := BuildTasks(s.revision, now, s.lastRoutes, BaseRoutes(s.nodes, s.spaces));
    KeepLastIs(s.plans + [Plan(s.nextPlan + 1, s.revision, reason, Planned, now, Number(tasks, s.nextPlan + 1))], MAX_MIGRATION_PLANS);
  }

  lemma LastSlotOwner(v: Validation, s: State, id: Text, scope: Scope, last: nat) returns (base: Route)
    requires Inv(v, s) && Served(s.nodes) && scope in s.spaces && last == VSLOT_MAX
    requires id in s.nodes && s.nodes[id].state == Healthy && forall k :: k in s.nodes ==> TextLe(k, id)
    ensures Owners(s.lastRoutes, scope, last) == [base] && base.nodeId == id
  {
    hide *;
    FiledId(v, s, id);
    var i;
    base, i := PublishedOwner(v, s, scope, last);
    ServedBy(s, scope, last, base, OverlayOwner(base, AllTasks(s.plans), scope, last));
    LastHealthy(s.nodes, id);
    LastRange(i, |HealthyNodes(SortedNodes(s.nodes))|);
  }

  lemma ServedBy(s: State, scope: Scope, vslot: nat, base: Route, owner: Route)
    requires Serves(s, scope, vslot, base, owner)
    ensures Owners(s.lastRoutes, scope, vslot) == [base] && Owners(Publish(s).routes, scope, vslot) == [owner]
  {
  }

  lemma FiledId(v: Validation, s: State, id: Text)
    requires Inv(v, s) && id in s.nodes
    ensures s.nodes[id].nodeId == id
  {
    hide BaseRoutes, CatalogName;
  }

  /** The last slot is in the last range. */
  lemma LastRange(i: nat, count: nat)
    requires 1 <= count <= VSLOT_COUNT && SoleOwner(i, count, VSLOT_MAX)
    ensures i == count - 1
  {
    RangesAreBalanced(count);
    Boundaries(count - 1, count);
    assert InRange(count - 1, count, VSLOT_MAX);
  }
}
