/** What every run of control commands keeps: the revision names the published content, the
    remembered route table is the current one, and an exported state restores to itself. */
module ControlLaws {
  import opened Common
  import opened Routing
  import opened Rebalance
  import opened MigrationTasks
  import opened ControlModel

  // ---------------------------------------------------------------- tables ignore most fields

  ghost predicate SameForRouting(a: Node, b: Node) {
    a.nodeId == b.nodeId && a.addr == b.addr && a.state == b.state
  }

  /** The same nodes, up to when they were last seen. */
  ghost predicate SameMembers(a: map<Text, Node>, b: map<Text, Node>) {
    a.Keys == b.Keys && forall k :: k in a ==> SameForRouting(a[k], b[k])
  }

  ghost predicate SameNodes(a: seq<Node>, b: seq<Node>) {
    |a| == |b| && forall k :: 0 <= k < |a| ==> SameForRouting(a[k], b[k])
  }

  ghost predicate SameScopes(a: seq<Space>, b: seq<Space>) {
    |a| == |b| && forall k :: 0 <= k < |a| ==> ScopeOf(a[k]) == ScopeOf(b[k])
  }

  lemma {:induction false} HealthySame(a: seq<Node>, b: seq<Node>)
    requires SameNodes(a, b)
    ensures SameNodes(HealthyNodes(a), HealthyNodes(b))
  {
    if a != [] { HealthySame(a[1..], b[1..]); }
  }

  lemma SpaceTableSame(a: seq<Node>, b: seq<Node>, scope: Scope)
    requires SameNodes(a, b)
    ensures RoutesForSpace(a, scope) == RoutesForSpace(b, scope)
  {
    forall k | 0 <= k < |a| ensures RouteFor(a, scope, k) == RouteFor(b, scope, k) {
      assert RouteReplicas(a, k, DEFAULT_ROUTE_REPLICA_COUNT) == RouteReplicas(b, k, DEFAULT_ROUTE_REPLICA_COUNT);
    }
  }

  lemma {:induction false} SpacesTableSame(a: seq<Node>, b: seq<Node>, p: seq<Space>, q: seq<Space>)
    requires SameNodes(a, b) && SameScopes(p, q)
    ensures RoutesForSpaces(a, p) == RoutesForSpaces(b, q)
  {
    if p != [] {
      SpaceTableSame(a, b, ScopeOf(p[0]));
      SpacesTableSame(a, b, p[1..], q[1..]);
    }
  }

  lemma TableSame(a: seq<Node>, b: seq<Node>, p: seq<Space>, q: seq<Space>)
    requires SameNodes(a, b) && SameScopes(p, q)
    ensures RoutesForNodes(a, p) == RoutesForNodes(b, q)
  {
    HealthySame(a, b);
    SpacesTableSame(HealthyNodes(a), HealthyNodes(b), p, q);
    SpaceTableSame(HealthyNodes(a), HealthyNodes(b), WILDCARD);
  }

  lemma SortedNodesSame(a: map<Text, Node>, b: map<Text, Node>)
    requires SameMembers(a, b)
    ensures SameNodes(SortedNodes(a), SortedNodes(b))
  {
    hide TextLe, TotalOrder;
    TextOrder();
    var ids := SortSet(a.Keys, TextLe);
    forall k | 0 <= k < |ids| ensures SameForRouting(SortedNodes(a)[k], SortedNodes(b)[k]) {
      assert ids[k] in ids;
    }
  }

  lemma SortedSpacesSame(p: map<Scope, Space>, q: map<Scope, Space>)
    requires p.Keys == q.Keys && forall k :: k in p ==> ScopeOf(p[k]) == ScopeOf(q[k])
    ensures SameScopes(SortedSpaces(p), SortedSpaces(q))
  {
    hide ScopeLe, TotalOrder;
    ScopeOrder();
    var scopes := SortSet(p.Keys, ScopeLe);
    forall k | 0 <= k < |scopes| ensures ScopeOf(SortedSpaces(p)[k]) == ScopeOf(SortedSpaces(q)[k]) {
      assert scopes[k] in scopes;
    }
  }

  /** The base table depends only on who the nodes are, where they are and their state, and on
      which spaces exist. */
  lemma BaseRoutesSame(a: map<Text, Node>, b: map<Text, Node>, p: map<Scope, Space>, q: map<Scope, Space>)
    requires SameMembers(a, b)
    requires p.Keys == q.Keys && forall k :: k in p ==> ScopeOf(p[k]) == ScopeOf(q[k])
    ensures BaseRoutes(a, p) == BaseRoutes(b, q)
  {
    hide RoutesForNodes, SortedNodes, SortedSpaces;
    SortedNodesSame(a, b);
    SortedSpacesSame(p, q);
    TableSame(SortedNodes(a), SortedNodes(b), SortedSpaces(p), SortedSpaces(q));
  }

  // ---------------------------------------------------------------- the invariant

  ghost predicate NodeFiled(v: Validation, id: Text, node: Node) {
    && node.nodeId == id && NormalNodeId(v, id) == Some(id)
    && NormalAddr(v, node.addr) == Some(node.addr)
  }

  ghost predicate Filed(v: Validation, s: State) {
    && (forall k :: k in s.namespaces ==> s.namespaces[k].namespace == k && CatalogName(k))
    && (forall k :: k in s.spaces ==> ScopeOf(s.spaces[k]) == k && CatalogName(k.namespace) && CatalogName(k.space))
    && (forall k :: k in s.entities ==>
          var e := s.entities[k];
          EntityRef(e.namespace, e.space, e.entity) == k
          && CatalogName(k.namespace) && CatalogName(k.space) && CatalogName(k.entity))
    && (forall k :: k in s.nodes ==> NodeFiled(v, k, s.nodes[k]))
  }

  ghost predicate Counted(s: State) {
    && (forall k :: 0 <= k < |s.events| ==> s.events[k].id <= s.nextEvent)
    && (forall k :: 0 <= k < |s.plans| ==> s.plans[k].id <= s.nextPlan)
    && |s.events| <= MAX_REBALANCE_EVENTS && |s.plans| <= MAX_MIGRATION_PLANS
  }

  ghost predicate Inv(v: Validation, s: State) {
    Filed(v, s) && Counted(s) && s.lastRoutes == BaseRoutes(s.nodes, s.spaces)
  }

  lemma InitInv(v: Validation, clusterId: Text)
    ensures Inv(v, Init(clusterId))
  {
  }

  /** What recording an event leaves alone. */
  lemma RecordFields(s: State, reason: Reason, subject: Subject, now: int)
    ensures
      var t := RecordEvent(s, reason, subject, now);
      t.revision == s.revision && t.nodes == s.nodes && t.spaces == s.spaces && t.lastRoutes == BaseRoutes(s.nodes, s.spaces)
  {
    hide BaseRoutes, BuildTasks, KeepLast;
  }

  lemma RecordEventKeeps(v: Validation, s: State, reason: Reason, subject: Subject, now: int)
    requires Filed(v, s) && Counted(s)
    ensures Inv(v, RecordEvent(s, reason, subject, now))
    ensures RecordEvent(s, reason, subject, now).revision == s.revision
  {
    hide BaseRoutes, BuildTasks, Number, CatalogName, NodeFiled;
    hide Counted, KeepLast;
    RecordCounted(s, reason, subject, now);
  }

  lemma RecordCounted(s: State, reason: Reason, subject: Subject, now: int)
    requires Counted(s)
    ensures Counted(RecordEvent(s, reason, subject, now))
  {
    hide BaseRoutes, BuildTasks, Number, KeepLast;
    var current := BaseRoutes(s.nodes, s.spaces);
    var event := Event(s.nextEvent + 1, s.revision, reason, subject, |current|, now);
    var plan := Plan(s.nextPlan + 1, s.revision, reason, Planned, now,
                     Number(BuildTasks(s.revision, now, s.lastRoutes, current), s.nextPlan + 1));
    EventsCounted(s.events, event);
    PlansCounted(s.plans, plan);
  }

  lemma EventsCounted(events: seq<Event>, event: Event)
    requires forall k :: 0 <= k < |events| ==> events[k].id < event.id
    ensures
      var kept := KeepLast(events + [event], MAX_REBALANCE_EVENTS);
      |kept| <= MAX_REBALANCE_EVENTS && forall k :: 0 <= k < |kept| ==> kept[k].id <= event.id
  {
    KeepLastIs(events + [event], MAX_REBALANCE_EVENTS);
  }

  lemma PlansCounted(plans: seq<Plan>, plan: Plan)
    requires forall k :: 0 <= k < |plans| ==> plans[k].id < plan.id
    ensures
      var kept := KeepLast(plans + [plan], MAX_MIGRATION_PLANS);
      |kept| <= MAX_MIGRATION_PLANS && forall k :: 0 <= k < |kept| ==> kept[k].id <= plan.id
  {
    KeepLastIs(plans + [plan], MAX_MIGRATION_PLANS);
  }

  lemma SweepNodeKeeps(v: Validation, s: State, id: Text, now: int, suspectAfterMs: int, deadAfterMs: int, clock: int)
    requires Inv(v, s)
    ensures Inv(v, SweepNode(s, id, now, suspectAfterMs, deadAfterMs, clock))
    ensures
      var t := SweepNode(s, id, now, suspectAfterMs, deadAfterMs, clock);
      t == s || t.revision > s.revision
  {
    hide BaseRoutes, RecordEvent;
    if id in s.nodes {
      var next := NextNodeState(s.nodes[id], now, suspectAfterMs, deadAfterMs);
      if s.nodes[id].state != next {
        var node := s.nodes[id].(state := next);
        RecordEventKeeps(v, s.(revision := s.revision + 1, nodes := s.nodes[id := node]),
                         LivenessReason(next), AboutNode(node), clock);
      }
    }
  }

  lemma {:induction false} SweepKeeps(v: Validation, s: State, order: seq<Text>, now: int, suspectAfterMs: int, deadAfterMs: int, clock: int)
    requires Inv(v, s)
    ensures Inv(v, Sweep(s, order, now, suspectAfterMs, deadAfterMs, clock))
    ensures
      var t := Sweep(s, order, now, suspectAfterMs, deadAfterMs, clock);
      t == s || t.revision > s.revision
    decreases order
  {
    if order != [] {
      SweepNodeKeeps(v, s, order[0], now, suspectAfterMs, deadAfterMs, clock);
      SweepKeeps(v, SweepNode(s, order[0], now, suspectAfterMs, deadAfterMs, clock), order[1..], now, suspectAfterMs, deadAfterMs, clock);
    }
  }

  lemma {:induction false} ClaimKeepsIds(plans: seq<Plan>, now: int)
    ensures |ClaimIn(plans, now).0| == |plans|
    ensures forall k :: 0 <= k < |plans| ==> ClaimIn(plans, now).0[k].id == plans[k].id
  {
    if plans != [] { ClaimKeepsIds(plans[1..], now); }
  }

  lemma {:induction false} UpdateKeepsIds(plans: seq<Plan>, planId: nat, taskId: nat, update: Update)
    ensures |UpdateIn(plans, planId, taskId, update).0| == |plans|
    ensures forall k :: 0 <= k < |plans| ==> UpdateIn(plans, planId, taskId, update).0[k].id == plans[k].id
  {
    if plans != [] { UpdateKeepsIds(plans[1..], planId, taskId, update); }
  }

  lemma UpdateStepKeeps(v: Validation, s: State, planId: nat, taskId: nat, update: Update)
    requires Inv(v, s)
    ensures Inv(v, DoUpdate(s, planId, taskId, update).0)
  {
    UpdateKeepsIds(s.plans, planId, taskId, update);
  }

  lemma NodeFiledAfterNormal(v: Validation, nodeId: Text, addr: Text, now: int)
    requires Lawful(v) && NormalNodeId(v, nodeId).Some? && NormalAddr(v, addr).Some?
    ensures
      var id := NormalNodeId(v, nodeId).value;
      NodeFiled(v, id, Node(id, NormalAddr(v, addr).value, Healthy, now))
  {
  }

  /** Storing a filed node. */
  lemma StoredNode(v: Validation, s: State, id: Text, node: Node, revision: nat)
    requires Filed(v, s) && Counted(s) && NodeFiled(v, id, node)
    ensures
      var stored := s.(revision := revision, nodes := s.nodes[id := node]);
      && Filed(v, stored) && Counted(stored)
      && (id in s.nodes && SameForRouting(s.nodes[id], node) ==> SameMembers(s.nodes, stored.nodes))
  {
    hide NodeFiled, CatalogName;
  }

  lemma StoredId(v: Validation, s: State, id: Text)
    requires Filed(v, s)
    ensures id in s.nodes ==> s.nodes[id].nodeId == id
  {
  }

  lemma RegisterKeeps(v: Validation, s: State, nodeId: Text, addr: Text, now: int, clock: int)
    requires Lawful(v) && Inv(v, s)
    ensures Inv(v, DoRegisterNode(v, s, nodeId, addr, now, clock).0)
  {
    hide BaseRoutes, RecordEvent, NormalNodeId, NormalAddr, Filed, Counted, SameMembers;
    if NormalNodeId(v, nodeId).Some? && NormalAddr(v, addr).Some? {
      NodeFiledAfterNormal(v, nodeId, addr, now);
      var id, at := NormalNodeId(v, nodeId).value, NormalAddr(v, addr).value;
      StoredId(v, s, id);
      hide NodeFiled;
      var stored := s.nodes[id := Node(id, at, Healthy, now)];
      StoredNode(v, s, id, stored[id], s.revision);
      StoredNode(v, s, id, stored[id], s.revision + 1);
      if id in s.nodes && s.nodes[id].addr == at && s.nodes[id].state == Healthy {
        BaseRoutesSame(s.nodes, stored, s.spaces, s.spaces);
      } else {
        var reason := if id !in s.nodes then NodeRegistered
                      else if s.nodes[id].addr != at then NodeAddress else NodeRecovered;
        RecordEventKeeps(v, s.(revision := s.revision + 1, nodes := stored), reason, AboutNode(stored[id]), clock);
      }
    }
  }

  lemma HeartbeatKeeps(v: Validation, s: State, nodeId: Text, addr: Text, now: int, clock: int)
    requires Lawful(v) && Inv(v, s)
    ensures Inv(v, DoHeartbeat(v, s, nodeId, addr, now, clock).0)
  {
    hide BaseRoutes, RecordEvent, NormalNodeId, NormalAddr, Filed, Counted, SameMembers;
    if NormalNodeId(v, nodeId).Some? && NormalAddr(v, addr).Some? {
      NodeFiledAfterNormal(v, nodeId, addr, now);
      var id, at := NormalNodeId(v, nodeId).value, NormalAddr(v, addr).value;
      StoredId(v, s, id);
      hide NodeFiled;
      var stored := s.nodes[id := Node(id, at, Healthy, now)];
      var known := id in s.nodes;
      var moved, recovered := known && s.nodes[id].addr != at, known && s.nodes[id].state != Healthy;
      StoredNode(v, s, id, stored[id], s.revision + Bit(!known) + Bit(moved) + Bit(recovered));
      if known && !moved && !recovered {
        BaseRoutesSame(s.nodes, stored, s.spaces, s.spaces);
      } else {
        var beaten := s.(revision := s.revision + Bit(!known) + Bit(moved) + Bit(recovered), nodes := stored);
        RecordEventKeeps(v, beaten, if recovered then NodeRecovered else if moved then NodeAddress else NodeRegistered,
                         AboutNode(stored[id]), clock);
      }
    }
  }

  lemma CreateSpaceKeeps(v: Validation, s: State, namespace: Text, space: Text, clock: int)
    requires Lawful(v) && Inv(v, s)
    ensures Inv(v, DoCreateSpace(v, s, namespace, space, clock).0)
  {
    hide BaseRoutes, RecordEvent, CatalogName;
    var named := NormalScope(v, namespace, space);
    if named.Some? {
      var scope := named.value;
      var added := s.(revision := s.revision + 1,
                      spaces := s.spaces[scope := Space(scope.namespace, scope.space, 1, clock)]);
      RecordEventKeeps(v, added, SpaceCreated, AboutSpace(scope), clock);
    }
  }

  lemma BumpSpaceKeeps(v: Validation, s: State, namespace: Text, space: Text)
    requires Lawful(v) && Inv(v, s)
    ensures Inv(v, DoBumpSpace(v, s, namespace, space).0)
  {
    hide BaseRoutes, CatalogName, NodeFiled;
    var named := NormalScope(v, namespace, space);
    if named.Some? && named.value in s.spaces {
      var item := s.spaces[named.value];
      BaseRoutesSame(s.nodes, s.nodes, s.spaces, s.spaces[named.value := item.(version := item.version + 1)]);
    }
  }

  lemma CreateNamespaceKeeps(v: Validation, s: State, n: Text, clock: int)
    requires Inv(v, s)
    ensures Inv(v, DoCreateNamespace(v, s, n, clock).0)
    ensures Inv(v, DoBumpNamespace(v, s, n).0)
  {
    hide BaseRoutes, CatalogName, NodeFiled;
  }

  lemma CreateEntityKeeps(v: Validation, s: State, n: Text, p: Text, e: Text, clock: int)
    requires Inv(v, s)
    ensures Inv(v, DoCreateEntity(v, s, n, p, e, clock).0)
  {
    hide BaseRoutes, CatalogName, NodeFiled;
  }

  /** Every command keeps the invariant; in particular the remembered table stays current. */
  lemma StepKeepsInv(v: Validation, s: State, c: Command, clock: int)
    requires Lawful(v) && Inv(v, s)
    ensures Inv(v, Step(v, s, c, clock).0)
  {
    hide Inv, DoCreateNamespace, DoCreateSpace, DoCreateEntity, DoBumpNamespace, DoBumpSpace, DoRegisterNode,
      DoHeartbeat, DoRemoveNode, Sweep, DoClaim, DoUpdate;
    match c
    case CreateNamespace(n) => CreateNamespaceKeeps(v, s, n, clock);
    case CreateSpace(n, p) => CreateSpaceKeeps(v, s, n, p, clock);
    case CreateEntity(n, p, e) => CreateEntityKeeps(v, s, n, p, e, clock);
    case BumpNamespace(n) => CreateNamespaceKeeps(v, s, n, clock);
    case BumpSpace(n, p) => BumpSpaceKeeps(v, s, n, p);
    case RegisterNode(id, addr, now) => RegisterKeeps(v, s, id, addr, CommandTime(now, clock), clock);
    case Heartbeat(id, addr, now) => HeartbeatKeeps(v, s, id, addr, CommandTime(now, clock), clock);
    case RemoveNode(id) => RemoveKeeps(v, s, id, clock);
    case AdvanceLiveness(now, suspect, dead, order) => SweepKeeps(v, s, order, now, suspect, dead, clock);
    case ClaimTask(now) => ClaimStepKeeps(v, s, CommandTime(now, clock));
    case CutoverTask(p, t, imported, now) => UpdateStepKeeps(v, s, p, t, CutoverUpdate(imported, CommandTime(now, clock)));
    case CompleteTask(p, t, imported, deleted, now) =>
      UpdateStepKeeps(v, s, p, t, CompleteUpdate(imported, deleted, CommandTime(now, clock)));
    case FailTask(p, t, message, retry, now) => UpdateStepKeeps(v, s, p, t, FailUpdate(message, retry, CommandTime(now, clock)));
    case Unknown =>
  }

  lemma RemoveKeeps(v: Validation, s: State, nodeId: Text, clock: int)
    requires Lawful(v) && Inv(v, s)
    ensures Inv(v, DoRemoveNode(v, s, nodeId, clock).0)
  {
    hide BaseRoutes, RecordEvent, NormalNodeId, NormalAddr;
    var named := NormalNodeId(v, nodeId);
    if named.Some? && named.value in s.nodes {
      var removed := s.(revision := s.revision + 1, nodes := s.nodes - {named.value});
      RecordEventKeeps(v, removed, NodeRemoved, AboutNode(s.nodes[named.value]), clock);
    }
  }

  lemma ClaimStepKeeps(v: Validation, s: State, now: int)
    requires Inv(v, s)
    ensures Inv(v, DoClaim(s, now).0)
  {
    hide BaseRoutes;
    ClaimKeepsIds(s.plans, now);
  }

  // ---------------------------------------------------------------- runs

  datatype Timed = Timed(command: Command, clock: int)

  function Run(v: Validation, s: State, commands: seq<Timed>): State
    decreases commands
  {
    if commands == [] then s
    else Run(v, Step(v, s, commands[0].command, commands[0].clock).0, commands[1..])
  }

  function Replies(v: Validation, s: State, commands: seq<Timed>): seq<Reply>
    decreases commands
  {
    if commands == [] then []
    else
      var (next, reply) := Step(v, s, commands[0].command, commands[0].clock);
      [reply] + Replies(v, next, commands[1..])
  }

  lemma {:induction false} RunKeepsInv(v: Validation, s: State, commands: seq<Timed>)
    requires Lawful(v) && Inv(v, s)
    ensures Inv(v, Run(v, s, commands))
    decreases commands
  {
    if commands != [] {
      StepKeepsInv(v, s, commands[0].command, commands[0].clock);
      RunKeepsInv(v, Step(v, s, commands[0].command, commands[0].clock).0, commands[1..]);
    }
  }

  /** Two states that publish the same, up to when nodes were last seen. */
  ghost predicate SameContent(s: State, t: State) {
    t.clusterId == s.clusterId && SameMembers(s.nodes, t.nodes) && Publish(t) == Publish(s)
  }

  /** One command either raises the revision or leaves everything published unchanged. */
  lemma StepNamesContent(v: Validation, s: State, c: Command, clock: int)
    requires Lawful(v) && Inv(v, s)
    ensures
      var t := Step(v, s, c, clock).0;
      t.revision > s.revision || (t.revision == s.revision && SameContent(s, t))
  {
    hide BaseRoutes, BuildTasks, Sweep, SortedNamespaces, SortedSpaces, SortedEntities, EffectiveRoutes, NormalName, NormalScope;
    hide NormalEntity, NormalNodeId, NormalAddr, Inv, ClaimIn, UpdateIn, KeepLast, SameContent, DoRegisterNode, DoHeartbeat;
    SameAsBefore(s);
    match c
    case RegisterNode(id, addr, now) => HeartbeatPublishes(v, s, id, addr, CommandTime(now, clock), clock);
    case Heartbeat(id, addr, now) => HeartbeatPublishes(v, s, id, addr, CommandTime(now, clock), clock);
    case AdvanceLiveness(now, suspect, dead, order) => SweepKeeps(v, s, order, now, suspect, dead, clock);
    case _ =>
  }

  lemma HeartbeatPublishes(v: Validation, s: State, nodeId: Text, addr: Text, now: int, clock: int)
    requires Lawful(v) && Inv(v, s)
    ensures
      var t := DoRegisterNode(v, s, nodeId, addr, now, clock).0;
      t.revision > s.revision || (t.revision == s.revision && SameContent(s, t))
    ensures
      var t := DoHeartbeat(v, s, nodeId, addr, now, clock).0;
      t.revision > s.revision || (t.revision == s.revision && SameContent(s, t))
  {
    hide BaseRoutes, BuildTasks, SortedNamespaces, SortedSpaces, SortedEntities, EffectiveRoutes, NormalNodeId, NormalAddr, KeepLast;
    hide Filed, Counted, SameContent;
    SameAsBefore(s);
    match (NormalNodeId(v, nodeId), NormalAddr(v, addr))
    case (Some(id), Some(at)) =>
      if id in s.nodes && s.nodes[id].addr == at && s.nodes[id].state == Healthy {
        StoredId(v, s, id);
        SeenAgain(s, id, now);
      }
    case _ =>
  }

  lemma SameAsBefore(s: State)
    ensures SameContent(s, s)
  {
  }

  /** Seeing an unchanged node again changes nothing published. */
  lemma SeenAgain(s: State, id: Text, now: int)
    requires id in s.nodes && s.nodes[id].nodeId == id && s.nodes[id].state == Healthy
    ensures SameContent(s, s.(nodes := s.nodes[id := Node(id, s.nodes[id].addr, Healthy, now)]))
  {
    hide BaseRoutes, SortedNamespaces, SortedSpaces, SortedEntities, EffectiveRoutes;
    BaseRoutesSame(s.nodes, s.nodes[id := Node(id, s.nodes[id].addr, Healthy, now)], s.spaces, s.spaces);
  }

  /** The revision names the content: it never decreases along a run, and when it is the same
      after some commands as before them, so is everything published but the times nodes were seen. */
  lemma {:induction false} RevisionNamesContent(v: Validation, s: State, commands: seq<Timed>)
    requires Lawful(v) && Inv(v, s)
    ensures Run(v, s, commands).revision >= s.revision
    ensures Run(v, s, commands).revision == s.revision ==> SameContent(s, Run(v, s, commands))
    decreases commands
  {
    if commands != [] {
      StepNamesContent(v, s, commands[0].command, commands[0].clock);
      StepKeepsInv(v, s, commands[0].command, commands[0].clock);
      RevisionNamesContent(v, Step(v, s, commands[0].command, commands[0].clock).0, commands[1..]);
    }
  }

  lemma {:induction false} RunSplit(v: Validation, s: State, commands: seq<Timed>, i: nat)
    requires i <= |commands|
    ensures Run(v, s, commands) == Run(v, Run(v, s, commands[..i]), commands[i..])
    decreases commands
  {
    if i == 0 {
      assert commands[0..] == commands;
    } else {
      var next := Step(v, s, commands[0].command, commands[0].clock).0;
      RunSplit(v, next, commands[1..], i - 1);
      assert commands[..i][1..] == commands[1..][..i - 1];
      assert commands[i..] == commands[1..][i - 1..];
    }
  }

  /** Snapshots of the same revision are the same, but for the times nodes were last seen. */
  ghost predicate SameSnapshot(a: SnapshotBody, b: SnapshotBody) {
    a.clusterId == b.clusterId && a.revision == b.revision && SameNodes(a.nodes, b.nodes) && a.published == b.published
  }

  /** Any two snapshots of a run from the empty state that carry the same revision hold the same
      namespaces, spaces, entities and routes, and the same nodes but for when they were seen. */
  lemma EqualRevisionsPublishTheSame(v: Validation, clusterId: Text, commands: seq<Timed>, i: nat, j: nat)
    requires Lawful(v) && i <= j <= |commands|
    ensures
      var a := Run(v, Init(clusterId), commands[..i]);
      var b := Run(v, Init(clusterId), commands[..j]);
      a.revision <= b.revision && (a.revision == b.revision ==> SameSnapshot(SnapshotOf(a), SnapshotOf(b)))
  {
    InitInv(v, clusterId);
    RunSplit(v, Init(clusterId), commands[..j], i);
    assert commands[..j][..i] == commands[..i];
    RunKeepsInv(v, Init(clusterId), commands[..i]);
    RevisionNamesContent(v, Run(v, Init(clusterId), commands[..i]), commands[..j][i..]);
    hide Run, Publish, SortedNodes;
    var a, b := Run(v, Init(clusterId), commands[..i]), Run(v, Init(clusterId), commands[..j]);
    if a.revision == b.revision { SortedNodesSame(a.nodes, b.nodes); }
  }

  // ---------------------------------------------------------------- export and restore

  lemma {:induction false} CollectValues<K(!new), V>(m: map<K, V>, keys: seq<K>, keyOf: V -> Option<K>)
    requires forall k :: k in keys ==> k in m && keyOf(m[k]) == Some(k)
    ensures Collect(ValuesAt(m, keys), keyOf) == Some(map k | k in keys :: m[k])
    decreases |keys|
  {
    if keys != [] {
      var n := |keys| - 1;
      var init := keys[..n];
      assert forall k :: k in init ==> k in keys;
      CollectValues(m, init, keyOf);
      assert ValuesAt(m, keys)[..n] == ValuesAt(m, init);
      assert keys[n] in keys && keys == init + [keys[n]];
      assert (map k | k in keys :: m[k]) == (map k | k in init :: m[k])[keys[n] := m[keys[n]]];
    }
  }

  lemma CollectAll<K(!new), V>(m: map<K, V>, le: (K, K) -> bool, keyOf: V -> Option<K>)
    requires TotalOrder(le) && forall k :: k in m ==> keyOf(m[k]) == Some(k)
    ensures Collect(ValuesAt(m, SortSet(m.Keys, le)), keyOf) == Some(m)
  {
    var keys := SortSet(m.Keys, le);
    CollectValues(m, keys, keyOf);
    assert (map k | k in keys :: m[k]) == m;
  }

  lemma {:induction false} MaxEventIdIs(events: seq<Event>, current: nat)
    requires forall k :: 0 <= k < |events| ==> events[k].id <= current
    ensures MaxEventId(events, current) == current
  {
    if events != [] { MaxEventIdIs(events[1..], current); }
  }

  lemma {:induction false} MaxPlanIdIs(plans: seq<Plan>, current: nat)
    requires forall k :: 0 <= k < |plans| ==> plans[k].id <= current
    ensures MaxPlanId(plans, current) == current
  {
    if plans != [] { MaxPlanIdIs(plans[1..], current); }
  }

  lemma NamespacesCollect(v: Validation, m: map<Text, Namespace>)
    requires Lawful(v) && forall k :: k in m ==> m[k].namespace == k && CatalogName(k)
    ensures Collect(SortedNamespaces(m), NamespaceKey(v)) == Some(m)
  {
    hide TextLe, TotalOrder, CatalogName;
    TextOrder();
    CollectAll(m, TextLe, NamespaceKey(v));
  }

  lemma SpacesCollect(v: Validation, m: map<Scope, Space>)
    requires Lawful(v)
    requires forall k :: k in m ==> ScopeOf(m[k]) == k && CatalogName(k.namespace) && CatalogName(k.space)
    ensures Collect(SortedSpaces(m), SpaceKey(v)) == Some(m)
  {
    hide ScopeLe, TotalOrder, CatalogName;
    ScopeOrder();
    CollectAll(m, ScopeLe, SpaceKey(v));
  }

  lemma EntitiesCollect(v: Validation, m: map<EntityRef, Entity>)
    requires Lawful(v)
    requires forall k :: k in m ==> EntityRef(m[k].namespace, m[k].space, m[k].entity) == k
    requires forall k :: k in m ==> CatalogName(k.namespace) && CatalogName(k.space) && CatalogName(k.entity)
    ensures Collect(SortedEntities(m), EntityKey(v)) == Some(m)
  {
    hide EntityLe, TotalOrder, CatalogName;
    EntityOrder();
    CollectAll(m, EntityLe, EntityKey(v));
  }

  lemma NodesCollect(v: Validation, m: map<Text, Node>)
    requires forall k :: k in m ==> NodeFiled(v, k, m[k])
    ensures Collect(SortedNodes(m), NodeKey(v)) == Some(m)
  {
    hide TextLe, TotalOrder;
    TextOrder();
    CollectAll(m, TextLe, NodeKey(v));
  }

  /** Exporting a reachable state and restoring the export gives the state back. */
  lemma RestoreOfExport(v: Validation, s: State)
    requires Lawful(v) && Inv(v, s)
    ensures Restore(v, Export(s)) == Some(s)
  {
    hide BaseRoutes, SortedNamespaces, SortedSpaces, SortedEntities, SortedNodes;
    NamespacesCollect(v, s.namespaces);
    SpacesCollect(v, s.spaces);
    EntitiesCollect(v, s.entities);
    NodesCollect(v, s.nodes);
    MaxEventIdIs(s.events, s.nextEvent);
    MaxPlanIdIs(s.plans, s.nextPlan);
  }

  /** A replica restored from a snapshot taken after any run answers every later command
      exactly as the original does, and ends in the same state. */
  lemma RestoredReplicaAgrees(v: Validation, clusterId: Text, before: seq<Timed>, after: seq<Timed>)
    requires Lawful(v)
    ensures
      var s := Run(v, Init(clusterId), before);
      var r := Restore(v, Export(s));
      && s.lastRoutes == BaseRoutes(s.nodes, s.spaces)
      && r.Some?
      && Run(v, r.value, after) == Run(v, s, after)
      && Replies(v, r.value, after) == Replies(v, s, after)
  {
    InitInv(v, clusterId);
    RunKeepsInv(v, Init(clusterId), before);
    RestoreOfExport(v, Run(v, Init(clusterId), before));
  }
}
