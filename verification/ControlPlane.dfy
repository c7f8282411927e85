/** `ControlState` as the mutable object it is (control/state.go and the files beside it). Every
    method is tied to the function of `ControlModel` that says what the command does. */
module ControlPlane {
  import opened Common
  import opened Routing
  import opened Rebalance
  import opened MigrationTasks
  import opened ControlModel
  import opened ControlLaws

  // ---------------------------------------------------------------- loops over lists and maps

  /** Drops the oldest items until at most `limit` are left. */
  method DropOldest<T>(items: seq<T>, limit: nat) returns (kept: seq<T>)
    ensures kept == KeepLast(items, limit)
  {
    kept := items;
    while |kept| > limit
      invariant KeepLast(kept, limit) == KeepLast(items, limit)
      decreases |kept|
    {
      kept := kept[1..];
    }
  }

  method NumberTasks(tasks: seq<Task>, planId: nat) returns (numbered: seq<Task>)
    ensures numbered == Number(tasks, planId)
  {
    numbered := [];
    for i := 0 to |tasks|
      invariant numbered == Number(tasks, planId)[..i]
    {
      numbered := numbered + [tasks[i].(planId := planId, taskId := i + 1)];
    }
  }

  method FindClaimable(tasks: seq<Task>, now: int) returns (found: Option<nat>)
    ensures found == FirstClaimable(tasks, now) && (found.Some? ==> found.value < |tasks|)
  {
    for i := 0 to |tasks|
      invariant FirstClaimable(tasks, now) == Shifted(FirstClaimable(tasks[i..], now), i)
    {
      if Claimable(tasks[i], now) {
        return Some(i);
      }
    }
    found := None;
  }

  function Shifted(found: Option<nat>, offset: nat): Option<nat> { if found.Some? then Some(found.value + offset) else None }

  method FindTask(tasks: seq<Task>, taskId: nat) returns (found: Option<nat>)
    ensures found == FirstTaskId(tasks, taskId)
  {
    for i := 0 to |tasks|
      invariant FirstTaskId(tasks, taskId) == Shifted(FirstTaskId(tasks[i..], taskId), i)
    {
      if tasks[i].taskId == taskId {
        return Some(i);
      }
    }
    found := None;
  }

  method ReplaceTask(plan: Plan, index: nat, task: Task) returns (next: Plan)
    requires index < |plan.tasks|
    ensures next == SetTask(plan, index, task)
  {
    var tasks := plan.tasks[index := task];
    var state := DeriveMigrationPlanState(tasks);
    next := plan.(tasks := tasks, state := state);
  }

  lemma ClaimUnfold(plans: seq<Plan>, now: int)
    requires plans != []
    ensures
      var k := FirstClaimable(plans[0].tasks, now);
      var rest := ClaimIn(plans[1..], now);
      if k.Some? then
        k.value < |plans[0].tasks| &&
        var task := MarkRunning(plans[0].tasks[k.value], now);
        ClaimIn(plans, now) == ([SetTask(plans[0], k.value, task)] + plans[1..], Some(task))
      else ClaimIn(plans, now) == ([plans[0]] + rest.0, rest.1)
  {
    FirstClaimableInRange(plans[0].tasks, now);
  }

  lemma ClaimNothing(plans: seq<Plan>, now: int)
    requires plans == []
    ensures ClaimIn(plans, now) == ([], None)
  {
  }

  method ClaimFirst(plans: seq<Plan>, now: int) returns (next: seq<Plan>, task: Option<Task>)
    ensures (next, task) == ClaimIn(plans, now)
  {
    hide ClaimIn, FirstClaimable, MarkRunning, SetTask;
    ClaimNothing(plans[|plans|..], now);
    assert plans[0..] == plans;
    for i := 0 to |plans|
      invariant ClaimIn(plans, now).0 == plans[..i] + ClaimIn(plans[i..], now).0 && ClaimIn(plans, now).1 == ClaimIn(plans[i..], now).1
    {
      ClaimUnfold(plans[i..], now);
      assert plans[i..][1..] == plans[i + 1..] && plans[..i + 1] == plans[..i] + [plans[i]];
      var k := FindClaimable(plans[i].tasks, now);
      if k.Some? {
        var claimed := MarkRunning(plans[i].tasks[k.value], now);
        var plan := ReplaceTask(plans[i], k.value, claimed);
        assert plans[i := plan] == plans[..i] + ([plan] + plans[i + 1..]);
        return plans[i := plan], Some(claimed);
      }
    }
    assert plans[..|plans|] + [] == plans;
    next, task := plans, None;
  }

  lemma UpdateUnfold(plans: seq<Plan>, planId: nat, taskId: nat, update: Update)
    requires plans != []
    ensures
      var k := if plans[0].id == planId then FirstTaskId(plans[0].tasks, taskId) else None;
      var rest := UpdateIn(plans[1..], planId, taskId, update);
      if k.Some? then
        k.value < |plans[0].tasks| &&
        var task := MigrationTasks.Apply(plans[0].tasks[k.value], update);
        UpdateIn(plans, planId, taskId, update) == ([SetTask(plans[0], k.value, task)] + plans[1..], Some(task))
      else UpdateIn(plans, planId, taskId, update) == ([plans[0]] + rest.0, rest.1)
  {
  }

  lemma UpdateNothing(plans: seq<Plan>, planId: nat, taskId: nat, update: Update)
    requires plans == []
    ensures UpdateIn(plans, planId, taskId, update) == ([], None)
  {
  }

  method UpdateFirst(plans: seq<Plan>, planId: nat, taskId: nat, update: Update) returns (next: seq<Plan>, task: Option<Task>)
    ensures (next, task) == UpdateIn(plans, planId, taskId, update)
  {
    hide UpdateIn, FirstTaskId, MigrationTasks.Apply, SetTask;
    UpdateNothing(plans[|plans|..], planId, taskId, update);
    assert plans[0..] == plans;
    for i := 0 to |plans|
      invariant UpdateIn(plans, planId, taskId, update).0 == plans[..i] + UpdateIn(plans[i..], planId, taskId, update).0
      invariant UpdateIn(plans, planId, taskId, update).1 == UpdateIn(plans[i..], planId, taskId, update).1
    {
      UpdateUnfold(plans[i..], planId, taskId, update);
      assert plans[i..][1..] == plans[i + 1..] && plans[..i + 1] == plans[..i] + [plans[i]];
      if plans[i].id == planId {
        var k := FindTask(plans[i].tasks, taskId);
        if k.Some? {
          var changed := MigrationTasks.Apply(plans[i].tasks[k.value], update);
          var plan := ReplaceTask(plans[i], k.value, changed);
          assert plans[i := plan] == plans[..i] + ([plan] + plans[i + 1..]);
          return plans[i := plan], Some(changed);
        }
      }
    }
    assert plans[..|plans|] + [] == plans;
    next, task := plans, None;
  }

  /** `restoreSpaces` and its siblings: file every item under its own normalised identity. */
  method CollectItems<K, V>(items: seq<V>, keyOf: V -> Option<K>) returns (found: Option<map<K, V>>)
    ensures found == Collect(items, keyOf)
  {
    var m: map<K, V> := map[];
    for i := 0 to |items|
      invariant Collect(items[..i], keyOf) == Some(m)
    {
      assert items[..i + 1][..i] == items[..i];
      var key := keyOf(items[i]);
      if key.None? {
        CollectFails(items, keyOf, i + 1);
        return None;
      }
      m := m[key.value := items[i]];
    }
    assert items[..|items|] == items;
    found := Some(m);
  }

  lemma {:induction false} CollectFails<K, V>(items: seq<V>, keyOf: V -> Option<K>, n: nat)
    requires n <= |items| && Collect(items[..n], keyOf) == None
    ensures Collect(items, keyOf) == None
  {
    if n == |items| {
      assert items[..n] == items;
    } else {
      assert items[..|items| - 1][..n] == items[..n];
      CollectFails(items[..|items| - 1], keyOf, n);
    }
  }

  method LargestEventId(events: seq<Event>, current: nat) returns (largest: nat)
    ensures largest == MaxEventId(events, current)
  {
    largest := current;
    for i := 0 to |events|
      invariant MaxEventId(events[i..], largest) == MaxEventId(events, current)
    {
      if events[i].id > largest {
        largest := events[i].id;
      }
    }
  }

  method LargestPlanId(plans: seq<Plan>, current: nat) returns (largest: nat)
    ensures largest == MaxPlanId(plans, current)
  {
    largest := current;
    for i := 0 to |plans|
      invariant MaxPlanId(plans[i..], largest) == MaxPlanId(plans, current)
    {
      if plans[i].id > largest {
        largest := plans[i].id;
      }
    }
  }

  // ---------------------------------------------------------------- the liveness sweep

  lemma {:induction false} SweepSnoc(s: State, order: seq<Text>, id: Text, now: int, suspect: int, dead: int, clock: int)
    ensures Sweep(s, order + [id], now, suspect, dead, clock) == SweepNode(Sweep(s, order, now, suspect, dead, clock), id, now, suspect, dead, clock)
    decreases order
  {
    hide SweepNode;
    if order == [] {
      assert [] + [id] == [id];
      assert [id][1..] == [];
    } else {
      assert (order + [id])[1..] == order[1..] + [id];
      SweepSnoc(SweepNode(s, order[0], now, suspect, dead, clock), order[1..], id, now, suspect, dead, clock);
    }
  }

  lemma {:induction false} ChangedSnoc(nodes: map<Text, Node>, order: seq<Text>, id: Text, now: int, suspect: int, dead: int)
    ensures SweepChanged(nodes, order + [id], now, suspect, dead)
         == SweepChanged(nodes, order, now, suspect, dead) + SweepChanged(nodes, [id], now, suspect, dead)
  {
    if order == [] {
      assert [] + [id] == [id];
    } else {
      assert (order + [id])[1..] == order[1..] + [id];
      ChangedSnoc(nodes, order[1..], id, now, suspect, dead);
    }
  }

  lemma SweepNodeNodes(s: State, id: Text, now: int, suspect: int, dead: int, clock: int)
    ensures SweepNode(s, id, now, suspect, dead, clock).nodes.Keys == s.nodes.Keys
    ensures forall k :: k in s.nodes && k != id ==> SweepNode(s, id, now, suspect, dead, clock).nodes[k] == s.nodes[k]
  {
    hide BaseRoutes, BuildTasks;
  }

  // ---------------------------------------------------------------- the object

  class ControlState {
    const v: Validation
    var clusterId: Text
    var revision: nat
    var namespaces: map<Text, Namespace>
    var spaces: map<Scope, Space>
    var entities: map<EntityRef, Entity>
    var nodes: map<Text, Node>
    var events: seq<Event>
    var plans: seq<Plan>
    var nextEvent: nat
    var nextPlan: nat
    var lastRoutes: seq<Route>

    ghost function Model(): State
      reads this
    {
      State(clusterId, revision, namespaces, spaces, entities, nodes, events, plans, nextEvent, nextPlan, lastRoutes)
    }

    /** Items are filed under their own identity, ids stay below their counters and the remembered
        table is the current one. */
    ghost predicate Valid()
      reads this
    {
      Inv(v, Model())
    }

    constructor (v: Validation, clusterId: Text)
      ensures this.v == v && Model() == Init(clusterId) && Valid()
    {
      this.v, this.clusterId, this.revision := v, clusterId, 0;
      namespaces, spaces, entities, nodes := map[], map[], map[], map[];
      events, plans, nextEvent, nextPlan, lastRoutes := [], [], 0, 0, [];
    }

    method RecordMigrationPlan(reason: Reason, now: int, previous: seq<Route>, current: seq<Route>)
      modifies this
      ensures Model() == RecordPlan(old(Model()), reason, now, previous, current)
    {
      var tasks := BuildMigrationTasks(revision, now, previous, current);
      if tasks == [] {
        return;
      }
      nextPlan := nextPlan + 1;
      var numbered := NumberTasks(tasks, nextPlan);
      plans := DropOldest(plans + [Plan(nextPlan, revision, reason, Planned, now, numbered)], MAX_MIGRATION_PLANS);
    }

    method CurrentRoutes() returns (routes: seq<Route>)
      ensures routes == BaseRoutes(nodes, spaces)
    {
      hide SortedNodes, SortedSpaces, RoutesForNodes;
      routes := BuildRoutesForNodes(SortedNodes(nodes), SortedSpaces(spaces));
    }

    method RecordRebalanceEvent(reason: Reason, subject: Subject, now: int)
      modifies this
      ensures Model() == RecordEvent(old(Model()), reason, subject, now)
    {
      hide RecordPlan, BaseRoutes, KeepLast;
      var previous := lastRoutes;
      var current := CurrentRoutes();
      nextEvent := nextEvent + 1;
      events := DropOldest(events + [Event(nextEvent, revision, reason, subject, |current|, now)], MAX_REBALANCE_EVENTS);
      RecordMigrationPlan(reason, now, previous, current);
      lastRoutes := current;
    }

    method CreateNamespace(namespace: Text, clock: int) returns (reply: Reply)
      modifies this
      ensures (Model(), reply) == DoCreateNamespace(v, old(Model()), namespace, clock)
    {
      var name := NormalName(v, namespace);
      if name.None? {
        return Rejected(InvalidName);
      }
      if name.value !in namespaces {
        revision := revision + 1;
        namespaces := namespaces[name.value := Namespace(name.value, 1, clock)];
      }
      reply := Accepted(revision, NamespaceItem(namespaces[name.value]));
    }

    method CreateSpace(namespace: Text, space: Text, clock: int) returns (reply: Reply)
      modifies this
      ensures (Model(), reply) == DoCreateSpace(v, old(Model()), namespace, space, clock)
    {
      hide RecordEvent, BaseRoutes;
      var scope := NormalScope(v, namespace, space);
      if scope.None? {
        return Rejected(InvalidName);
      }
      if scope.value.namespace !in namespaces {
        return Rejected(NotFound);
      }
      if scope.value !in spaces {
        revision := revision + 1;
        spaces := spaces[scope.value := Space(scope.value.namespace, scope.value.space, 1, clock)];
        ghost var added := Model();
        RecordRebalanceEvent(SpaceCreated, AboutSpace(scope.value), clock);
        RecordFields(added, SpaceCreated, AboutSpace(scope.value), clock);
      }
      reply := Accepted(revision, SpaceItem(spaces[scope.value]));
    }

    method CreateEntity(namespace: Text, space: Text, entity: Text, clock: int) returns (reply: Reply)
      modifies this
      ensures (Model(), reply) == DoCreateEntity(v, old(Model()), namespace, space, entity, clock)
    {
      var named := NormalEntity(v, namespace, space, entity);
      if named.None? {
        return Rejected(InvalidName);
      }
      var ref := named.value;
      if ref.namespace !in namespaces || Scope(ref.namespace, ref.space) !in spaces {
        return Rejected(NotFound);
      }
      if ref !in entities {
        revision := revision + 1;
        entities := entities[ref := Entity(ref.namespace, ref.space, ref.entity, clock)];
      }
      reply := Accepted(revision, EntityItem(entities[ref]));
    }

    method BumpNamespaceVersion(namespace: Text) returns (reply: Reply)
      modifies this
      ensures (Model(), reply) == DoBumpNamespace(v, old(Model()), namespace)
    {
      var name := NormalName(v, namespace);
      if name.None? {
        return Rejected(InvalidName);
      }
      if name.value !in namespaces {
        return Rejected(NotFound);
      }
      var item := namespaces[name.value].(version := namespaces[name.value].version + 1);
      revision := revision + 1;
      namespaces := namespaces[name.value := item];
      reply := Accepted(revision, NamespaceItem(item));
    }

    method BumpSpaceVersion(namespace: Text, space: Text) returns (reply: Reply)
      modifies this
      ensures (Model(), reply) == DoBumpSpace(v, old(Model()), namespace, space)
    {
      var scope := NormalScope(v, namespace, space);
      if scope.None? {
        return Rejected(InvalidName);
      }
      if scope.value.namespace !in namespaces || scope.value !in spaces {
        return Rejected(NotFound);
      }
      var item := spaces[scope.value].(version := spaces[scope.value].version + 1);
      revision := revision + 1;
      spaces := spaces[scope.value := item];
      reply := Accepted(revision, SpaceItem(item));
    }

    method RegisterNodeAt(nodeId: Text, addr: Text, now: int, clock: int) returns (reply: Reply)
      modifies this
      ensures (Model(), reply) == DoRegisterNode(v, old(Model()), nodeId, addr, now, clock)
    {
      hide RecordEvent, BaseRoutes, NormalNodeId, NormalAddr;
      var named, located := NormalNodeId(v, nodeId), NormalAddr(v, addr);
      if named.None? || located.None? {
        return Rejected(InvalidNode);
      }
      var id := named.value;
      var node := Node(id, located.value, Healthy, now);
      var reason := None;
      if id !in nodes {
        reason := Some(NodeRegistered);
      } else if nodes[id].addr != node.addr {
        reason := Some(NodeAddress);
      } else if nodes[id].state != node.state {
        reason := Some(NodeRecovered);
      }
      nodes := nodes[id := node];
      if reason.Some? {
        revision := revision + 1;
        ghost var stored := Model();
        RecordRebalanceEvent(reason.value, AboutNode(node), clock);
        RecordFields(stored, reason.value, AboutNode(node), clock);
      }
      reply := Accepted(revision, NodeItem(node));
    }

    method HeartbeatAt(nodeId: Text, addr: Text, now: int, clock: int) returns (reply: Reply)
      modifies this
      ensures (Model(), reply) == DoHeartbeat(v, old(Model()), nodeId, addr, now, clock)
    {
      hide RecordEvent, BaseRoutes, NormalNodeId, NormalAddr;
      var named, located := NormalNodeId(v, nodeId), NormalAddr(v, addr);
      if named.None? || located.None? {
        return Rejected(InvalidNode);
      }
      var id := named.value;
      var reason := None;
      var node;
      if id in nodes {
        node := nodes[id];
      } else {
        node := Node(id, located.value, Healthy, 0);
        revision := revision + 1;
        reason := Some(NodeRegistered);
      }
      if node.addr != located.value {
        revision := revision + 1;
        reason := Some(NodeAddress);
      }
      if node.state != Healthy {
        revision := revision + 1;
        reason := Some(NodeRecovered);
      }
      // an entry is filed under its own id, so the stored identity is the one named here
      node := Node(id, located.value, Healthy, now);
      nodes := nodes[id := node];
      if reason.Some? {
        ghost var stored := Model();
        RecordRebalanceEvent(reason.value, AboutNode(node), clock);
        RecordFields(stored, reason.value, AboutNode(node), clock);
      }
      reply := Accepted(revision, NodeItem(node));
    }

    method RemoveNode(nodeId: Text, clock: int) returns (reply: Reply)
      modifies this
      ensures (Model(), reply) == DoRemoveNode(v, old(Model()), nodeId, clock)
    {
      hide RecordEvent, BaseRoutes, NormalNodeId;
      var named := NormalNodeId(v, nodeId);
      if named.None? {
        return Rejected(InvalidNode);
      }
      var id := named.value;
      if id !in nodes {
        return Rejected(NotFound);
      }
      var node := nodes[id];
      nodes := nodes - {id};
      revision := revision + 1;
      ghost var removed := Model();
      RecordRebalanceEvent(NodeRemoved, AboutNode(node), clock);
      RecordFields(removed, NodeRemoved, AboutNode(node), clock);
      reply := Accepted(revision, NodeItem(node));
    }

    /** One visit of the sweep: the node, if its state changed. */
    method VisitNode(id: Text, now: int, suspectAfterMs: int, deadAfterMs: int, clock: int) returns (changed: seq<Node>)
      requires id in nodes
      modifies this
      ensures Model() == SweepNode(old(Model()), id, now, suspectAfterMs, deadAfterMs, clock)
      ensures changed == SweepChanged(old(nodes), [id], now, suspectAfterMs, deadAfterMs)
    {
      hide RecordEvent;
      ChangedOne(nodes, id, now, suspectAfterMs, deadAfterMs);
      var next := NextNodeState(nodes[id], now, suspectAfterMs, deadAfterMs);
      if nodes[id].state == next {
        return [];
      }
      var node := nodes[id].(state := next);
      nodes := nodes[id := node];
      revision := revision + 1;
      RecordRebalanceEvent(LivenessReason(next), AboutNode(node), clock);
      changed := [node];
    }

    /** The sweep visits every node once, in whatever order the map is iterated. */
    method AdvanceLiveness(now: int, suspectAfterMs: int, deadAfterMs: int, clock: int) returns (changed: seq<Node>, ghost order: seq<Text>)
      modifies this
      ensures Model() == Sweep(old(Model()), order, now, suspectAfterMs, deadAfterMs, clock)
      ensures changed == SweepChanged(old(nodes), order, now, suspectAfterMs, deadAfterMs)
      ensures EachOnce(order, old(nodes).Keys)
    {
      hide SweepNode, NextNodeState;
      changed, order := [], [];
      var todo := nodes.Keys;
      while todo != {}
        invariant todo <= nodes.Keys == old(nodes).Keys && EachOnce(order, old(nodes).Keys - todo)
        invariant forall id :: id in todo ==> nodes[id] == old(nodes)[id]
        invariant Model() == Sweep(old(Model()), order, now, suspectAfterMs, deadAfterMs, clock)
        invariant changed == SweepChanged(old(nodes), order, now, suspectAfterMs, deadAfterMs)
        decreases |todo|
      {
        hide Sweep, SweepChanged, EachOnce;
        var id :| id in todo;
        SweepSnoc(old(Model()), order, id, now, suspectAfterMs, deadAfterMs, clock);
        ChangedSnoc(old(nodes), order, id, now, suspectAfterMs, deadAfterMs);
        ChangedHere(nodes, old(nodes), id, now, suspectAfterMs, deadAfterMs);
        SweepNodeNodes(Model(), id, now, suspectAfterMs, deadAfterMs, clock);
        OnceMore(order, old(nodes).Keys, todo, id);
        var more := VisitNode(id, now, suspectAfterMs, deadAfterMs, clock);
        changed := changed + more;
        order := order + [id];
        todo := todo - {id};
      }
      assert old(nodes).Keys - todo == old(nodes).Keys;
    }

    method ClaimMigrationTask(now: int) returns (reply: Reply)
      modifies this
      ensures (Model(), reply) == DoClaim(old(Model()), now)
    {
      hide ClaimIn;
      var next, task := ClaimFirst(plans, now);
      if task.None? {
        return NothingToClaim;
      }
      plans := next;
      revision := revision + 1;
      reply := Claimed(task.value);
    }

    method UpdateMigrationTask(planId: nat, taskId: nat, update: Update) returns (reply: Reply)
      modifies this
      ensures (Model(), reply) == DoUpdate(old(Model()), planId, taskId, update)
    {
      hide UpdateIn;
      var next, task := UpdateFirst(plans, planId, taskId, update);
      if task.None? {
        return Rejected(NotFound);
      }
      plans := next;
      revision := revision + 1;
      reply := Updated(task.value);
    }

    method TimedOutMigrationTasks(now: int, timeoutMs: int) returns (stale: seq<Task>)
      ensures stale == if timeoutMs <= 0 then [] else Stale(AllTasks(plans), now, timeoutMs)
    {
      if timeoutMs <= 0 {
        return [];
      }
      stale := [];
      for p := 0 to |plans|
        invariant stale + Stale(AllTasks(plans[p..]), now, timeoutMs) == Stale(AllTasks(plans), now, timeoutMs)
      {
        var tasks := plans[p].tasks;
        assert PlanTasks(plans[p..])[1..] == PlanTasks(plans[p + 1..]);
        assert AllTasks(plans[p..]) == tasks[0..] + AllTasks(plans[p + 1..]);
        ghost var rest := AllTasks(plans[p + 1..]);
        for t := 0 to |tasks|
          invariant stale + Stale(tasks[t..] + rest, now, timeoutMs) == Stale(AllTasks(plans), now, timeoutMs)
        {
          assert (tasks[t..] + rest)[1..] == tasks[t + 1..] + rest;
          if TimedOut(tasks[t], now, timeoutMs) {
            stale := stale + [tasks[t]];
          }
        }
        assert tasks[|tasks|..] + rest == rest;
      }
    }

    /** `ControlFSM.Apply`: one replicated command. The order in which a sweep visited the nodes is
        the one of the command it amounts to. */
    method Apply(c: Command, clock: int) returns (reply: Reply, ghost applied: Command)
      modifies this
      ensures (Model(), reply) == Step(v, old(Model()), applied, clock)
      ensures if c.AdvanceLiveness? then applied.AdvanceLiveness? && applied == c.(order := applied.order) else applied == c
      ensures c.AdvanceLiveness? ==> EachOnce(applied.order, old(nodes).Keys)
      ensures Lawful(v) && old(Valid()) ==> Valid()
    {
      hide RecordEvent, Sweep, SweepChanged, ClaimIn, UpdateIn, RecordPlan, EachOnce, Inv;
      reply, applied := Dispatch(c, clock);
      if Lawful(v) && old(Valid()) { StepKeepsInv(v, old(Model()), applied, clock); }
    }

    method Dispatch(c: Command, clock: int) returns (reply: Reply, ghost applied: Command)
      modifies this
      ensures (Model(), reply) == Step(v, old(Model()), applied, clock)
      ensures if c.AdvanceLiveness? then applied.AdvanceLiveness? && applied == c.(order := applied.order) else applied == c
      ensures c.AdvanceLiveness? ==> EachOnce(applied.order, old(nodes).Keys)
    {
      hide RecordEvent, Sweep, SweepChanged, ClaimIn, UpdateIn, RecordPlan, EachOnce;
      hide DoCreateNamespace, DoCreateSpace, DoCreateEntity, DoBumpNamespace, DoBumpSpace, DoRegisterNode, DoHeartbeat, DoRemoveNode, DoClaim, DoUpdate;
      applied := c;
      match c
      case CreateNamespace(n) => reply := CreateNamespace(n, clock);
      case CreateSpace(n, p) => reply := CreateSpace(n, p, clock);
      case CreateEntity(n, p, e) => reply := CreateEntity(n, p, e, clock);
      case BumpNamespace(n) => reply := BumpNamespaceVersion(n);
      case BumpSpace(n, p) => reply := BumpSpaceVersion(n, p);
      case RegisterNode(id, addr, now) => reply := RegisterNodeAt(id, addr, CommandTime(now, clock), clock);
      case Heartbeat(id, addr, now) => reply := HeartbeatAt(id, addr, CommandTime(now, clock), clock);
      case RemoveNode(id) => reply := RemoveNode(id, clock);
      case AdvanceLiveness(now, suspect, dead, _) =>
        var changed, order := AdvanceLiveness(now, suspect, dead, clock);
        applied := Command.AdvanceLiveness(now, suspect, dead, order);
        reply := Swept(revision, changed);
      case ClaimTask(now) => reply := ClaimMigrationTask(CommandTime(now, clock));
      case CutoverTask(p, t, imported, now) => reply := UpdateMigrationTask(p, t, CutoverUpdate(imported, CommandTime(now, clock)));
      case CompleteTask(p, t, imported, deleted, now) =>
        reply := UpdateMigrationTask(p, t, CompleteUpdate(imported, deleted, CommandTime(now, clock)));
      case FailTask(p, t, message, retry, now) => reply := UpdateMigrationTask(p, t, FailUpdate(message, retry, CommandTime(now, clock)));
      case Unknown => reply := Rejected(UnknownCommand);
    }

    /** `Snapshot()`: the sorted nodes and catalog, and the effective routes. */
    method Snapshot() returns (body: SnapshotBody)
      ensures body == SnapshotOf(Model())
    {
      hide BaseRoutes, SortedNodes, SortedSpaces, SortedNamespaces, SortedEntities, EffectiveRoutes;
      var base := CurrentRoutes();
      var routes := ApplyMigrationRouteOverrides(base, PlanTasks(plans));
      var published := Published(SortedNamespaces(namespaces), SortedSpaces(spaces), SortedEntities(entities), routes);
      body := SnapshotBody(clusterId, revision, SortedNodes(nodes), published);
    }

    /** The export restores to the state it was taken from. */
    method ExportSnapshot() returns (e: Exported)
      ensures e == Export(Model()) && (Lawful(v) && Valid() ==> Restore(v, e) == Some(Model()))
    {
      hide SortedNodes, SortedSpaces, SortedNamespaces, SortedEntities, Restore, Inv;
      e := Exported(clusterId, revision, SortedNamespaces(namespaces), SortedSpaces(spaces), SortedEntities(entities),
                    SortedNodes(nodes), events, plans, nextEvent, nextPlan);
      if Lawful(v) && Valid() { RestoreOfExport(v, Model()); }
    }

    /** Restoring replaces the whole state, or nothing when some item has an invalid identity. */
    method RestoreSnapshot(e: Exported) returns (ok: bool)
      modifies this
      ensures ok == Restore(v, e).Some? && Model() == if ok then Restore(v, e).value else old(Model())
    {
      hide Collect, MaxEventId, MaxPlanId, BaseRoutes, NamespaceKey, SpaceKey, EntityKey, NodeKey, Restore;
      RestoreCollects(v, e);
      var restoredNamespaces := CollectItems(e.namespaces, NamespaceKey(v));
      var restoredSpaces := CollectItems(e.spaces, SpaceKey(v));
      var restoredEntities := CollectItems(e.entities, EntityKey(v));
      var restoredNodes := CollectItems(e.nodes, NodeKey(v));
      if restoredNamespaces.None? || restoredSpaces.None? || restoredEntities.None? || restoredNodes.None? {
        return false;
      }
      clusterId, revision := e.clusterId, e.revision;
      namespaces, spaces, entities, nodes := restoredNamespaces.value, restoredSpaces.value, restoredEntities.value, restoredNodes.value;
      events, plans := e.events, e.plans;
      nextEvent := LargestEventId(e.events, e.nextEvent);
      nextPlan := LargestPlanId(e.plans, e.nextPlan);
      lastRoutes := CurrentRoutes();
      ok := true;
    }
  }

  lemma RestoreCollects(v: Validation, e: Exported)
    ensures
      var namespaces, spaces := Collect(e.namespaces, NamespaceKey(v)), Collect(e.spaces, SpaceKey(v));
      var entities, nodes := Collect(e.entities, EntityKey(v)), Collect(e.nodes, NodeKey(v));
      if namespaces.None? || spaces.None? || entities.None? || nodes.None? then Restore(v, e) == None
      else Restore(v, e) == Some(State(e.clusterId, e.revision, namespaces.value, spaces.value, entities.value, nodes.value, e.events, e.plans,
                                       MaxEventId(e.events, e.nextEvent), MaxPlanId(e.plans, e.nextPlan), BaseRoutes(nodes.value, spaces.value)))
  {
    hide Collect, MaxEventId, MaxPlanId, BaseRoutes, NamespaceKey, SpaceKey, EntityKey, NodeKey;
  }

  function Stale(tasks: seq<Task>, now: int, timeoutMs: int): seq<Task> {
    if tasks == [] then []
    else (if TimedOut(tasks[0], now, timeoutMs) then [tasks[0]] else []) + Stale(tasks[1..], now, timeoutMs)
  }

  lemma ChangedOne(nodes: map<Text, Node>, id: Text, now: int, suspect: int, dead: int)
    requires id in nodes
    ensures
      var next := NextNodeState(nodes[id], now, suspect, dead);
      SweepChanged(nodes, [id], now, suspect, dead) == if nodes[id].state == next then [] else [nodes[id].(state := next)]
  {
    assert [id][1..] == [];
  }

  /** The sequence lists each element of the set once. */
  ghost predicate EachOnce(order: seq<Text>, ids: set<Text>) {
    (forall i, j :: 0 <= i < j < |order| ==> order[i] != order[j]) && (forall id :: id in order <==> id in ids)
  }

  lemma OnceMore(order: seq<Text>, ids: set<Text>, todo: set<Text>, id: Text)
    requires EachOnce(order, ids - todo) && id in todo && todo <= ids
    ensures EachOnce(order + [id], ids - (todo - {id}))
  {
    assert id !in order;
  }

  lemma ChangedHere(nodes: map<Text, Node>, before: map<Text, Node>, id: Text, now: int, suspect: int, dead: int)
    requires id in nodes && id in before && nodes[id] == before[id]
    ensures SweepChanged(nodes, [id], now, suspect, dead) == SweepChanged(before, [id], now, suspect, dead)
  {
    ChangedOne(nodes, id, now, suspect, dead);
    ChangedOne(before, id, now, suspect, dead);
  }
}
