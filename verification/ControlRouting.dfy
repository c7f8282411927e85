/** Routing over whole runs of control commands: the published table serves every slot of every
    registered space exactly once. */
module ControlRouting {
  import opened Common
  import opened Slots
  import opened Routing
  import opened RoutingLaws
  import opened Rebalance
  import opened MigrationTasks
  import opened ControlModel
  import opened ControlLaws

  // ---------------------------------------------------------------- how many nodes are healthy

  ghost function HealthyIds(nodes: map<Text, Node>): set<Text> {
    set id | id in nodes && nodes[id].state == Healthy
  }

  ghost function HealthyAmong(nodes: map<Text, Node>, keys: seq<Text>): set<Text>
    requires forall k :: k in keys ==> k in nodes
  {
    set k | k in keys && nodes[k].state == Healthy
  }

  lemma HealthyAmongStep(nodes: map<Text, Node>, keys: seq<Text>)
    requires keys != [] && forall k :: k in keys ==> k in nodes
    requires keys[0] !in keys[1..]
    ensures forall k :: k in keys[1..] ==> k in nodes
    ensures |HealthyAmong(nodes, keys)|
         == (if nodes[keys[0]].state == Healthy then 1 else 0) + |HealthyAmong(nodes, keys[1..])|
  {
    var rest := keys[1..];
    assert keys == [keys[0]] + rest;
    if nodes[keys[0]].state == Healthy {
      assert HealthyAmong(nodes, keys) == HealthyAmong(nodes, rest) + {keys[0]};
    } else {
      assert HealthyAmong(nodes, keys) == HealthyAmong(nodes, rest);
    }
  }

  lemma {:induction false} HealthyCountAt(nodes: map<Text, Node>, keys: seq<Text>)
    requires forall k :: k in keys ==> k in nodes
    requires forall i, j :: 0 <= i < j < |keys| ==> keys[i] != keys[j]
    ensures |HealthyNodes(ValuesAt(nodes, keys))| == |HealthyAmong(nodes, keys)|
    decreases |keys|
  {
    hide HealthyAmong;
    if keys == [] {
      EmptyAmong(nodes);
    } else {
      HealthyAmongStep(nodes, keys);
      HealthyCountAt(nodes, keys[1..]);
      assert ValuesAt(nodes, keys)[1..] == ValuesAt(nodes, keys[1..]);
    }
  }

  lemma EmptyAmong(nodes: map<Text, Node>)
    ensures HealthyAmong(nodes, []) == {}
  {
  }

  lemma HealthyCount(nodes: map<Text, Node>)
    ensures |HealthyNodes(SortedNodes(nodes))| == |HealthyIds(nodes)|
  {
    hide TextLe, TotalOrder;
    TextOrder();
    var keys := SortSet(nodes.Keys, TextLe);
    HealthyCountAt(nodes, keys);
    assert HealthyAmong(nodes, keys) == HealthyIds(nodes);
  }

  /** At most 32768 nodes are healthy: the limit of slot-by-slot selection. */
  ghost predicate Small(nodes: map<Text, Node>) { |HealthyIds(nodes)| <= 32768 }

  lemma SubsetCount<T>(a: set<T>, b: set<T>)
    requires a <= b
    ensures |a| <= |b|
  {
    assert |b| == |a| + |b - a| by { assert a + (b - a) == b; }
  }

  lemma SortedAddressed(v: Validation, nodes: map<Text, Node>)
    requires forall k :: k in nodes ==> NodeFiled(v, k, nodes[k])
    ensures AddressedNodes(SortedNodes(nodes))
  {
    assert forall k :: k in nodes ==> nodes[k].addr != [];
    hide TextLe, TotalOrder, NodeFiled;
    TextOrder();
    var keys := SortSet(nodes.Keys, TextLe);
    assert forall k :: 0 <= k < |keys| ==> keys[k] in keys;
  }

  lemma SortedScopes(v: Validation, s: State)
    requires Filed(v, s)
    ensures DistinctScopes(SortedSpaces(s.spaces))
    ensures forall scope :: scope in s.spaces ==> Registered(SortedSpaces(s.spaces), scope)
    ensures forall scope :: scope in s.spaces ==> scope != WILDCARD
  {
    assert forall scope :: scope in s.spaces ==> scope != WILDCARD && ScopeOf(s.spaces[scope]) == scope;
    hide ScopeLe, TotalOrder, Filed;
    ScopeOrder();
    var keys := SortSet(s.spaces.Keys, ScopeLe);
    forall k | 0 <= k < |keys| ensures ScopeOf(SortedSpaces(s.spaces)[k]) == keys[k] {
      assert keys[k] in keys;
    }
    forall scope | scope in s.spaces ensures Registered(SortedSpaces(s.spaces), scope) {
      var k :| 0 <= k < |keys| && keys[k] == scope;
      assert ScopeOf(SortedSpaces(s.spaces)[k]) == scope;
    }
  }

  lemma CoarseState(v: Validation, nodes: map<Text, Node>, spaces: map<Scope, Space>)
    requires Small(nodes) && forall k :: k in nodes ==> NodeFiled(v, k, nodes[k])
    ensures CoarseTable(BaseRoutes(nodes, spaces))
  {
    hide SortedNodes, SortedSpaces, RoutesForNodes, CoarseTable;
    HealthyCount(nodes);
    SortedAddressed(v, nodes);
    CoarseBase(SortedNodes(nodes), SortedSpaces(spaces));
  }

  // ---------------------------------------------------------------- plans stay overlay-safe

  ghost predicate SafePlan(plan: Plan) {
    forall k :: 0 <= k < |plan.tasks| ==> SafeTask(plan.tasks[k])
  }

  ghost predicate SafePlans(plans: seq<Plan>) {
    forall p :: 0 <= p < |plans| ==> SafePlan(plans[p])
  }

  lemma RecordKeepsSafe(s: State, reason: Reason, subject: Subject, now: int)
    requires SafePlans(s.plans) && CoarseTable(s.lastRoutes) && CoarseTable(BaseRoutes(s.nodes, s.spaces))
    ensures SafePlans(RecordEvent(s, reason, subject, now).plans)
  {
    hide BaseRoutes, BuildTasks, CoarseTable, SafePlans, SafeTask;
    var current := BaseRoutes(s.nodes, s.spaces);
    BuiltTasksSafe(s.revision, now, s.lastRoutes, current);
    var tasks := BuildTasks(s.revision, now, s.lastRoutes, current);
    AppendedSafe(s.plans, tasks, Plan(s.nextPlan + 1, s.revision, reason, Planned, now, Number(tasks, s.nextPlan + 1)));
  }

  lemma AppendedSafe(plans: seq<Plan>, tasks: seq<Task>, plan: Plan)
    requires SafePlans(plans) && plan.tasks == Number(tasks, plan.id)
    requires forall k :: 0 <= k < |tasks| ==> SafeTask(tasks[k])
    ensures SafePlans(KeepLast(plans + [plan], MAX_MIGRATION_PLANS))
  {
    assert SafePlan(plan);
    KeepLastIs(plans + [plan], MAX_MIGRATION_PLANS);
  }

  lemma {:induction false} ClaimKeepsSafe(plans: seq<Plan>, now: int)
    requires SafePlans(plans)
    ensures SafePlans(ClaimIn(plans, now).0)
  {
    if plans != [] {
      ClaimKeepsSafe(plans[1..], now);
      FirstClaimableInRange(plans[0].tasks, now);
    }
  }

  lemma {:induction false} UpdateKeepsSafe(plans: seq<Plan>, planId: nat, taskId: nat, update: Update)
    requires SafePlans(plans)
    ensures SafePlans(UpdateIn(plans, planId, taskId, update).0)
  {
    if plans != [] { UpdateKeepsSafe(plans[1..], planId, taskId, update); }
  }

  /** Recording a change whose tables before and after are both small keeps plans safe. */
  lemma ChangeKeepsSafe(v: Validation, s: State, nodes: map<Text, Node>, spaces: map<Scope, Space>, revision: nat,
                        reason: Reason, subject: Subject, now: int)
    requires Inv(v, s) && SafePlans(s.plans) && Small(s.nodes) && Small(nodes)
    requires forall k :: k in nodes ==> NodeFiled(v, k, nodes[k])
    ensures SafePlans(RecordEvent(s.(nodes := nodes, spaces := spaces, revision := revision), reason, subject, now).plans)
  {
    hide BaseRoutes, RecordEvent, CoarseTable, SafePlans, Small;
    CoarseState(v, s.nodes, s.spaces);
    CoarseState(v, nodes, spaces);
    RecordKeepsSafe(s.(nodes := nodes, spaces := spaces, revision := revision), reason, subject, now);
  }

  lemma {:induction false} SweepKeepsSafe(v: Validation, s: State, order: seq<Text>, now: int, suspectAfterMs: int, deadAfterMs: int, clock: int)
    requires Inv(v, s) && SafePlans(s.plans) && Small(s.nodes)
    ensures SafePlans(Sweep(s, order, now, suspectAfterMs, deadAfterMs, clock).plans)
    decreases order
  {
    hide BaseRoutes, RecordEvent, SafePlans, NodeFiled;
    if order != [] {
      var id := order[0];
      SweepNodeKeeps(v, s, id, now, suspectAfterMs, deadAfterMs, clock);
      SweepNodeKeepsSafe(v, s, id, now, suspectAfterMs, deadAfterMs, clock);
      SweepKeepsSafe(v, SweepNode(s, id, now, suspectAfterMs, deadAfterMs, clock), order[1..], now, suspectAfterMs, deadAfterMs, clock);
    }
  }

  lemma SweepNodeKeepsSafe(v: Validation, s: State, id: Text, now: int, suspectAfterMs: int, deadAfterMs: int, clock: int)
    requires Inv(v, s) && SafePlans(s.plans) && Small(s.nodes)
    ensures SafePlans(SweepNode(s, id, now, suspectAfterMs, deadAfterMs, clock).plans)
    ensures Small(SweepNode(s, id, now, suspectAfterMs, deadAfterMs, clock).nodes)
  {
    hide RecordEvent, SafePlans, Small, NodeFiled, BaseRoutes;
    if id in s.nodes {
      var next := NextNodeState(s.nodes[id], now, suspectAfterMs, deadAfterMs);
      if s.nodes[id].state != next {
        var node := s.nodes[id].(state := next);
        var nodes := s.nodes[id := node];
        FewerHealthy(v, s.nodes, id, next);
        var changed := s.(revision := s.revision + 1, nodes := nodes);
        assert changed == s.(nodes := nodes, spaces := s.spaces, revision := s.revision + 1);
        ChangeKeepsSafe(v, s, nodes, s.spaces, s.revision + 1, LivenessReason(next), AboutNode(node), clock);
        RecordFields(changed, LivenessReason(next), AboutNode(node), clock);
      }
    }
  }

  /** A sweep never makes a node healthy. */
  lemma FewerHealthy(v: Validation, nodes: map<Text, Node>, id: Text, next: NodeState)
    requires id in nodes && next != Healthy && Small(nodes) && forall k :: k in nodes ==> NodeFiled(v, k, nodes[k])
    ensures
      var swept := nodes[id := nodes[id].(state := next)];
      Small(swept) && forall k :: k in swept ==> NodeFiled(v, k, swept[k])
  {
    var swept := nodes[id := nodes[id].(state := next)];
    assert HealthyIds(swept) <= HealthyIds(nodes);
    SubsetCount(HealthyIds(swept), HealthyIds(nodes));
  }

  lemma RegisterStepSafe(v: Validation, s: State, nodeId: Text, addr: Text, now: int, clock: int)
    requires Lawful(v) && Inv(v, s) && SafePlans(s.plans) && Small(s.nodes)
    requires Small(DoRegisterNode(v, s, nodeId, addr, now, clock).0.nodes)
    ensures SafePlans(DoRegisterNode(v, s, nodeId, addr, now, clock).0.plans)
  {
    hide BaseRoutes, BuildTasks, SafePlans, NormalNodeId, NormalAddr, Small;
    if NormalNodeId(v, nodeId).Some? && NormalAddr(v, addr).Some? {
      NodeFiledAfterNormal(v, nodeId, addr, now);
      var id, at := NormalNodeId(v, nodeId).value, NormalAddr(v, addr).value;
      var nodes := s.nodes[id := Node(id, at, Healthy, now)];
      assert Small(nodes);
      var reason := if id !in s.nodes then NodeRegistered else if s.nodes[id].addr != at then NodeAddress else NodeRecovered;
      ChangeKeepsSafe(v, s, nodes, s.spaces, s.revision + 1, reason, AboutNode(nodes[id]), clock);
    }
  }

  lemma HeartbeatStepSafe(v: Validation, s: State, nodeId: Text, addr: Text, now: int, clock: int)
    requires Lawful(v) && Inv(v, s) && SafePlans(s.plans) && Small(s.nodes)
    requires Small(DoHeartbeat(v, s, nodeId, addr, now, clock).0.nodes)
    ensures SafePlans(DoHeartbeat(v, s, nodeId, addr, now, clock).0.plans)
  {
    hide BaseRoutes, BuildTasks, SafePlans, NormalNodeId, NormalAddr, Small;
    if NormalNodeId(v, nodeId).Some? && NormalAddr(v, addr).Some? {
      NodeFiledAfterNormal(v, nodeId, addr, now);
      var id, at := NormalNodeId(v, nodeId).value, NormalAddr(v, addr).value;
      var nodes := s.nodes[id := Node(id, at, Healthy, now)];
      assert Small(nodes);
      var known := id in s.nodes;
      var moved, recovered := known && s.nodes[id].addr != at, known && s.nodes[id].state != Healthy;
      ChangeKeepsSafe(v, s, nodes, s.spaces, s.revision + Bit(!known) + Bit(moved) + Bit(recovered),
                      if recovered then NodeRecovered else if moved then NodeAddress else NodeRegistered,
                      AboutNode(nodes[id]), clock);
    }
  }

  lemma RemoveStepSafe(v: Validation, s: State, nodeId: Text, clock: int)
    requires Inv(v, s) && SafePlans(s.plans) && Small(s.nodes)
    ensures SafePlans(DoRemoveNode(v, s, nodeId, clock).0.plans)
  {
    hide BaseRoutes, BuildTasks, SafePlans, NormalNodeId, NormalAddr;
    var named := NormalNodeId(v, nodeId);
    if named.Some? && named.value in s.nodes {
      var nodes := s.nodes - {named.value};
      assert HealthyIds(nodes) <= HealthyIds(s.nodes);
      SubsetCount(HealthyIds(nodes), HealthyIds(s.nodes));
      ChangeKeepsSafe(v, s, nodes, s.spaces, s.revision + 1, NodeRemoved, AboutNode(s.nodes[named.value]), clock);
    }
  }

  lemma CreateSpaceSafe(v: Validation, s: State, namespace: Text, space: Text, clock: int)
    requires Inv(v, s) && SafePlans(s.plans) && Small(s.nodes)
    ensures SafePlans(DoCreateSpace(v, s, namespace, space, clock).0.plans)
  {
    hide BaseRoutes, BuildTasks, SafePlans, CatalogName, NodeFiled;
    var named := NormalScope(v, namespace, space);
    if named.Some? {
      var scope := named.value;
      ChangeKeepsSafe(v, s, s.nodes, s.spaces[scope := Space(scope.namespace, scope.space, 1, clock)], s.revision + 1,
                      SpaceCreated, AboutSpace(scope), clock);
    }
  }

  lemma StepKeepsSafe(v: Validation, s: State, c: Command, clock: int)
    requires Lawful(v) && Inv(v, s) && SafePlans(s.plans) && Small(s.nodes)
    requires Small(Step(v, s, c, clock).0.nodes)
    ensures SafePlans(Step(v, s, c, clock).0.plans)
  {
    hide Inv, SafePlans, Small, DoCreateSpace, DoRegisterNode, DoHeartbeat, DoRemoveNode, Sweep;
    match c
    case CreateSpace(n, p) => CreateSpaceSafe(v, s, n, p, clock);
    case RegisterNode(id, addr, now) => RegisterStepSafe(v, s, id, addr, CommandTime(now, clock), clock);
    case Heartbeat(id, addr, now) => HeartbeatStepSafe(v, s, id, addr, CommandTime(now, clock), clock);
    case RemoveNode(id) => RemoveStepSafe(v, s, id, clock);
    case AdvanceLiveness(now, suspect, dead, order) => SweepKeepsSafe(v, s, order, now, suspect, dead, clock);
    case ClaimTask(now) => ClaimKeepsSafe(s.plans, CommandTime(now, clock));
    case CutoverTask(p, t, imported, now) => UpdateKeepsSafe(s.plans, p, t, CutoverUpdate(imported, CommandTime(now, clock)));
    case CompleteTask(p, t, imported, deleted, now) =>
      UpdateKeepsSafe(s.plans, p, t, CompleteUpdate(imported, deleted, CommandTime(now, clock)));
    case FailTask(p, t, message, retry, now) => UpdateKeepsSafe(s.plans, p, t, FailUpdate(message, retry, CommandTime(now, clock)));
    case _ =>
  }

  /** No state of the run has more than 32768 healthy nodes. */
  ghost predicate StaysSmall(v: Validation, s: State, commands: seq<Timed>)
    decreases commands
  {
    Small(s.nodes) &&
    (commands != [] ==> StaysSmall(v, Step(v, s, commands[0].command, commands[0].clock).0, commands[1..]))
  }

  lemma {:induction false} RunKeepsSafe(v: Validation, s: State, commands: seq<Timed>)
    requires Lawful(v) && Inv(v, s) && SafePlans(s.plans) && StaysSmall(v, s, commands)
    ensures SafePlans(Run(v, s, commands).plans) && Small(Run(v, s, commands).nodes)
    decreases commands
  {
    hide Inv, SafePlans, Small, Step;
    if commands != [] {
      var next := Step(v, s, commands[0].command, commands[0].clock).0;
      StepKeepsInv(v, s, commands[0].command, commands[0].clock);
      StepKeepsSafe(v, s, commands[0].command, commands[0].clock);
      RunKeepsSafe(v, next, commands[1..]);
    }
  }

  lemma {:induction false} FlattenSafe(plans: seq<Plan>)
    requires SafePlans(plans)
    ensures forall k :: 0 <= k < |AllTasks(plans)| ==> SafeTask(AllTasks(plans)[k])
  {
    if plans != [] {
      FlattenSafe(plans[1..]);
      assert PlanTasks(plans)[1..] == PlanTasks(plans[1..]);
      assert AllTasks(plans) == plans[0].tasks + AllTasks(plans[1..]);
      assert SafePlan(plans[0]);
    }
  }

  /** In every state of a run that stays within 32768 healthy nodes and has at least one, every
      slot of every registered space has exactly one owner in the published table: the source of
      the last outstanding task covering it, else its base owner; and selecting a route for a key
      of that slot returns that owner. */
  lemma PublishedRoutingIsTotal(v: Validation, clusterId: Text, commands: seq<Timed>, scope: Scope, vslot: nat)
    returns (i: nat)
    requires Lawful(v) && StaysSmall(v, Init(clusterId), commands) && vslot <= VSLOT_MAX
    requires HealthyIds(Run(v, Init(clusterId), commands).nodes) != {}
    requires scope in Run(v, Init(clusterId), commands).spaces
    ensures
      var s := Run(v, Init(clusterId), commands);
      var healthy := HealthyNodes(SortedNodes(s.nodes));
      var routes := Publish(s).routes;
      var selected := SelectSpec(routes, scope, vslot);
      && |healthy| > 0 && SoleOwner(i, |healthy|, vslot)
      && Owners(routes, scope, vslot)
         == [OverlayOwner(Endpoint(RouteFor(healthy, scope, i)), AllTasks(s.plans), scope, vslot)]
      && selected.Some? && Covers(selected.value, scope, vslot)
      && Owners(routes, scope, vslot) == [Endpoint(selected.value)]
  {
    hide SelectSpec, Owners, RoutesForNodes, EffectiveRoutes, SortedNodes, SortedSpaces, SafePlans, NodeFiled;
    var s := Run(v, Init(clusterId), commands);
    InitInv(v, clusterId);
    RunKeepsInv(v, Init(clusterId), commands);
    EmptyPlansSafe(clusterId);
    RunKeepsSafe(v, Init(clusterId), commands);
    HealthyCount(s.nodes);
    SortedAddressed(v, s.nodes);
    SortedScopes(v, s);
    FlattenSafe(s.plans);
    i := EffectiveOwner(SortedNodes(s.nodes), SortedSpaces(s.spaces), AllTasks(s.plans), scope, vslot);
    SelectReturnsOwner(SortedNodes(s.nodes), SortedSpaces(s.spaces), AllTasks(s.plans), scope, vslot);
  }

  lemma EmptyPlansSafe(clusterId: Text)
    ensures SafePlans(Init(clusterId).plans)
  {
  }
}
