/** Diffing two route tables into migration tasks (control/rebalance.go). */
module Rebalance {
  import opened Common
  import opened Slots
  import opened Routing
  import opened RoutingLaws

  predicate EmptyScope(route: Route) { route.namespace == [] && route.space == [] }

  predicate SameScope(a: Route, b: Route) { a.namespace == b.namespace && a.space == b.space }

  /** The task that moves the overlap of `previous` and `current`, if there is one to move. */
  function TaskFor(revision: nat, createdAt: int, previous: Route, current: Route): seq<Task> {
    var start := Max(previous.vslotStart, current.vslotStart);
    var end := Min(previous.vslotEnd, current.vslotEnd);
    if EmptyScope(previous) || !SameScope(previous, current) || previous.nodeId == current.nodeId || start > end then []
    else [Task(0, 0, revision, current.namespace, current.space, start, end,
               previous.nodeId, previous.addr, current.nodeId, current.addr,
               Planned, createdAt, 0, 0, 0, 0, 0, 0, 0, [])]
  }

  function TasksForRoute(revision: nat, createdAt: int, previous: seq<Route>, current: Route): seq<Task> {
    if previous == [] then []
    else TaskFor(revision, createdAt, previous[0], current) + TasksForRoute(revision, createdAt, previous[1..], current)
  }

  function BuildTasks(revision: nat, createdAt: int, previous: seq<Route>, current: seq<Route>): seq<Task> {
    if current == [] then []
    else
      (if EmptyScope(current[0]) then [] else TasksForRoute(revision, createdAt, previous, current[0]))
      + BuildTasks(revision, createdAt, previous, current[1..])
  }

  method MigrationTasksForRoute(revision: nat, createdAt: int, previous: seq<Route>, current: Route)
    returns (tasks: seq<Task>)
    ensures tasks == if EmptyScope(current) then [] else TasksForRoute(revision, createdAt, previous, current)
  {
    if EmptyScope(current) {
      return [];
    }
    tasks := [];
    for i := 0 to |previous|
      invariant tasks + TasksForRoute(revision, createdAt, previous[i..], current)
             == TasksForRoute(revision, createdAt, previous, current)
    {
      tasks := tasks + TaskFor(revision, createdAt, previous[i], current);
    }
  }

  method BuildMigrationTasks(revision: nat, createdAt: int, previous: seq<Route>, current: seq<Route>)
    returns (tasks: seq<Task>)
    ensures tasks == BuildTasks(revision, createdAt, previous, current)
  {
    tasks := [];
    for i := 0 to |current|
      invariant tasks + BuildTasks(revision, createdAt, previous, current[i..])
             == BuildTasks(revision, createdAt, previous, current)
    {
      var more := MigrationTasksForRoute(revision, createdAt, previous, current[i]);
      tasks := tasks + more;
    }
  }

  // ---------------------------------------------------------------- what the tasks move

  datatype Move = Move(source: Text, sourceAddr: Text, target: Text, targetAddr: Text)

  /** The moves that tasks prescribe for one slot, in task order. */
  ghost function Moves(tasks: seq<Task>, scope: Scope, vslot: nat): seq<Move> {
    if tasks == [] then []
    else (if TaskCovers(tasks[0], scope, vslot)
          then [Move(tasks[0].sourceNodeId, tasks[0].sourceAddr, tasks[0].targetNodeId, tasks[0].targetAddr)] else [])
         + Moves(tasks[1..], scope, vslot)
  }

  lemma {:induction false} MovesConcat(a: seq<Task>, b: seq<Task>, scope: Scope, vslot: nat)
    ensures Moves(a + b, scope, vslot) == Moves(a, scope, vslot) + Moves(b, scope, vslot)
  {
    if a == [] {
      assert a + b == b;
    } else {
      assert (a + b)[1..] == a[1..] + b;
      MovesConcat(a[1..], b, scope, vslot);
    }
  }

  ghost function MovesTo(owners: seq<Route>, current: Route): seq<Move> {
    if owners == [] then []
    else (if owners[0].nodeId == current.nodeId then []
          else [Move(owners[0].nodeId, owners[0].addr, current.nodeId, current.addr)])
         + MovesTo(owners[1..], current)
  }

  lemma {:induction false} RouteMoves(revision: nat, createdAt: int, previous: seq<Route>, current: Route, scope: Scope, vslot: nat)
    requires scope != WILDCARD
    ensures Moves(TasksForRoute(revision, createdAt, previous, current), scope, vslot)
         == if Covers(current, scope, vslot) then MovesTo(Owners(previous, scope, vslot), current) else []
  {
    if previous != [] {
      var head := TaskFor(revision, createdAt, previous[0], current);
      MovesConcat(head, TasksForRoute(revision, createdAt, previous[1..], current), scope, vslot);
      RouteMoves(revision, createdAt, previous[1..], current, scope, vslot);
      assert Moves(head, scope, vslot)
          == if Covers(current, scope, vslot) && Covers(previous[0], scope, vslot)
             then MovesTo([Endpoint(previous[0])], current) else [];
      if Covers(previous[0], scope, vslot) {
        assert Owners(previous, scope, vslot)[1..] == Owners(previous[1..], scope, vslot);
      } else {
        assert Owners(previous, scope, vslot) == Owners(previous[1..], scope, vslot);
      }
    }
  }

  ghost function CrossMoves(previous: seq<Route>, current: seq<Route>): seq<Move> {
    if current == [] then [] else MovesTo(previous, current[0]) + CrossMoves(previous, current[1..])
  }

  lemma {:induction false} TableMoves(revision: nat, createdAt: int, previous: seq<Route>, current: seq<Route>, scope: Scope, vslot: nat)
    requires scope != WILDCARD
    ensures Moves(BuildTasks(revision, createdAt, previous, current), scope, vslot)
         == CrossMoves(Owners(previous, scope, vslot), Owners(current, scope, vslot))
  {
    if current != [] {
      var head := if EmptyScope(current[0]) then [] else TasksForRoute(revision, createdAt, previous, current[0]);
      MovesConcat(head, BuildTasks(revision, createdAt, previous, current[1..]), scope, vslot);
      TableMoves(revision, createdAt, previous, current[1..], scope, vslot);
      RouteMoves(revision, createdAt, previous, current[0], scope, vslot);
      MovesToEndpoint(Owners(previous, scope, vslot), current[0]);
      if Covers(current[0], scope, vslot) {
        assert Owners(current, scope, vslot)[1..] == Owners(current[1..], scope, vslot);
      } else {
        assert Owners(current, scope, vslot) == Owners(current[1..], scope, vslot);
      }
    }
  }

  lemma {:induction false} MovesToEndpoint(owners: seq<Route>, current: Route)
    ensures MovesTo(owners, current) == MovesTo(owners, Endpoint(current))
  {
    if owners != [] { MovesToEndpoint(owners[1..], current); }
  }

  // ---------------------------------------------------------------- a new plan moves no traffic

  ghost predicate Fresh(task: Task) { task.state == Planned && task.cutoverAtUnix == 0 }

  lemma {:induction false} RouteTasksFresh(revision: nat, createdAt: int, previous: seq<Route>, current: Route)
    ensures forall k :: 0 <= k < |TasksForRoute(revision, createdAt, previous, current)| ==>
              Fresh(TasksForRoute(revision, createdAt, previous, current)[k])
  {
    if previous != [] { RouteTasksFresh(revision, createdAt, previous[1..], current); }
  }

  lemma {:induction false} BuiltTasksFresh(revision: nat, createdAt: int, previous: seq<Route>, current: seq<Route>)
    ensures forall k :: 0 <= k < |BuildTasks(revision, createdAt, previous, current)| ==>
              Fresh(BuildTasks(revision, createdAt, previous, current)[k])
  {
    if current != [] {
      RouteTasksFresh(revision, createdAt, previous, current[0]);
      BuiltTasksFresh(revision, createdAt, previous, current[1..]);
    }
  }

  /** Overlaying fresh tasks of which none or one covers the slot. */
  lemma {:induction false} OverlayOfMoves(base: Route, tasks: seq<Task>, scope: Scope, vslot: nat)
    requires forall k :: 0 <= k < |tasks| ==> Fresh(tasks[k])
    requires |Moves(tasks, scope, vslot)| <= 1
    ensures
      var owner := OverlayOwner(base, tasks, scope, vslot);
      if Moves(tasks, scope, vslot) == [] then owner == base
      else owner.nodeId == Moves(tasks, scope, vslot)[0].source && owner.addr == Moves(tasks, scope, vslot)[0].sourceAddr
    decreases tasks
  {
    if tasks != [] {
      var covered := TaskCovers(tasks[0], scope, vslot);
      OverlayOfMoves(if covered then SourceRoute(tasks[0]) else base, tasks[1..], scope, vslot);
    }
  }

  /** Two different tasks that both cover a slot prescribe two moves for it. */
  lemma {:induction false} TwoTasksTwoMoves(tasks: seq<Task>, scope: Scope, vslot: nat, i: nat, j: nat)
    requires i < j < |tasks| && TaskCovers(tasks[i], scope, vslot) && TaskCovers(tasks[j], scope, vslot)
    ensures |Moves(tasks, scope, vslot)| >= 2
  {
    if i > 0 {
      TwoTasksTwoMoves(tasks[1..], scope, vslot, i - 1, j - 1);
    } else {
      OneTaskOneMove(tasks[1..], scope, vslot, j - 1);
    }
  }

  lemma {:induction false} OneTaskOneMove(tasks: seq<Task>, scope: Scope, vslot: nat, j: nat)
    requires j < |tasks| && TaskCovers(tasks[j], scope, vslot)
    ensures |Moves(tasks, scope, vslot)| >= 1
  {
    if j > 0 { OneTaskOneMove(tasks[1..], scope, vslot, j - 1); }
  }

  lemma {:induction false} NoMoveNoTask(tasks: seq<Task>, scope: Scope, vslot: nat) returns (j: nat)
    requires |Moves(tasks, scope, vslot)| >= 1
    ensures j < |tasks| && TaskCovers(tasks[j], scope, vslot)
  {
    if TaskCovers(tasks[0], scope, vslot) {
      j := 0;
    } else {
      j := NoMoveNoTask(tasks[1..], scope, vslot);
      j := j + 1;
    }
  }

  /** Recording a plan moves no traffic. At every slot that both tables serve exactly once,
      overlaying the new tasks on the new table gives back the old owner's node; the tasks
      covering the slot are at most one, and there is one exactly when the owner changed. */
  lemma PlanMovesNoTraffic(revision: nat, createdAt: int, previous: seq<Route>, current: seq<Route>, scope: Scope, vslot: nat)
    requires scope != WILDCARD
    requires |Owners(previous, scope, vslot)| == 1 && |Owners(current, scope, vslot)| == 1
    ensures
      var tasks := BuildTasks(revision, createdAt, previous, current);
      var was := Owners(previous, scope, vslot)[0];
      var becomes := Owners(current, scope, vslot)[0];
      && |Owners(ApplyTasks(current, tasks), scope, vslot)| == 1
      && Owners(ApplyTasks(current, tasks), scope, vslot)[0].nodeId == was.nodeId
      && (was.nodeId != becomes.nodeId ==> Owners(ApplyTasks(current, tasks), scope, vslot)[0].addr == was.addr)
      && (forall i, j :: 0 <= i < j < |tasks| ==>
            !(TaskCovers(tasks[i], scope, vslot) && TaskCovers(tasks[j], scope, vslot)))
      && ((exists i :: 0 <= i < |tasks| && TaskCovers(tasks[i], scope, vslot)) <==> was.nodeId != becomes.nodeId)
      && (forall i :: 0 <= i < |tasks| && TaskCovers(tasks[i], scope, vslot) ==>
            tasks[i].sourceNodeId == was.nodeId && tasks[i].targetNodeId == becomes.nodeId)
  {
    var tasks := BuildTasks(revision, createdAt, previous, current);
    var was := Owners(previous, scope, vslot)[0];
    var becomes := Owners(current, scope, vslot)[0];
    TableMoves(revision, createdAt, previous, current, scope, vslot);
    assert Owners(previous, scope, vslot) == [was] && Owners(current, scope, vslot) == [becomes];
    var moves := if was.nodeId == becomes.nodeId then []
                 else [Move(was.nodeId, was.addr, becomes.nodeId, becomes.addr)];
    assert CrossMoves([was], [becomes]) == MovesTo([was], becomes) == moves;
    assert Moves(tasks, scope, vslot) == moves;
    BuiltTasksFresh(revision, createdAt, previous, current);
    ApplyTasksOwner(current, tasks, scope, vslot, becomes);
    OverlayOfMoves(becomes, tasks, scope, vslot);
    forall i, j | 0 <= i < j < |tasks|
      ensures !(TaskCovers(tasks[i], scope, vslot) && TaskCovers(tasks[j], scope, vslot))
    {
      if TaskCovers(tasks[i], scope, vslot) && TaskCovers(tasks[j], scope, vslot) {
        TwoTasksTwoMoves(tasks, scope, vslot, i, j);
      }
    }
    forall i | 0 <= i < |tasks| && TaskCovers(tasks[i], scope, vslot)
      ensures tasks[i].sourceNodeId == was.nodeId && tasks[i].targetNodeId == becomes.nodeId
      ensures was.nodeId != becomes.nodeId
    {
      CoveringTaskMoves(tasks, scope, vslot, i);
    }
    if was.nodeId != becomes.nodeId {
      var i := NoMoveNoTask(tasks, scope, vslot);
    }
  }

  lemma {:induction false} CoveringTaskMoves(tasks: seq<Task>, scope: Scope, vslot: nat, i: nat)
    requires i < |tasks| && TaskCovers(tasks[i], scope, vslot)
    ensures Move(tasks[i].sourceNodeId, tasks[i].sourceAddr, tasks[i].targetNodeId, tasks[i].targetAddr)
              in Moves(tasks, scope, vslot)
  {
    if i > 0 { CoveringTaskMoves(tasks[1..], scope, vslot, i - 1); }
  }

  // ---------------------------------------------------------------- tasks stay overlay-safe

  /** A table split over at most 32768 nodes: no boundary falls on slot 1 and no range ends at 0. */
  ghost predicate CoarseTable(routes: seq<Route>) {
    forall k :: 0 <= k < |routes| ==>
      routes[k].vslotStart != 1 && routes[k].vslotEnd != 0 && routes[k].addr != []
  }

  lemma {:induction false} CoarseSpaces(healthy: seq<Node>, spaces: seq<Space>)
    requires 1 <= |healthy| <= 32768 && AddressedNodes(healthy)
    ensures CoarseTable(RoutesForSpaces(healthy, spaces))
  {
    if spaces != [] {
      CoarseSpaces(healthy, spaces[1..]);
      CoarseSpace(healthy, ScopeOf(spaces[0]));
    }
  }

  lemma CoarseSpace(healthy: seq<Node>, scope: Scope)
    requires 1 <= |healthy| <= 32768 && AddressedNodes(healthy)
    ensures CoarseTable(RoutesForSpace(healthy, scope))
  {
    FirstRangeIsSingleton(|healthy|);
    Contiguous(0, |healthy|);
  }

  lemma CoarseBase(nodes: seq<Node>, spaces: seq<Space>)
    requires |HealthyNodes(nodes)| <= 32768 && AddressedNodes(nodes)
    ensures CoarseTable(RoutesForNodes(nodes, spaces))
  {
    HealthyAddressed(nodes);
    if HealthyNodes(nodes) != [] {
      CoarseSpaces(HealthyNodes(nodes), spaces);
      CoarseSpace(HealthyNodes(nodes), WILDCARD);
    }
  }

  lemma {:induction false} RouteTasksSafe(revision: nat, createdAt: int, previous: seq<Route>, current: Route)
    requires CoarseTable(previous) && current.vslotStart != 1 && current.vslotEnd != 0
    ensures forall k :: 0 <= k < |TasksForRoute(revision, createdAt, previous, current)| ==>
              SafeTask(TasksForRoute(revision, createdAt, previous, current)[k])
  {
    if previous != [] { RouteTasksSafe(revision, createdAt, previous[1..], current); }
  }

  lemma {:induction false} BuiltTasksSafe(revision: nat, createdAt: int, previous: seq<Route>, current: seq<Route>)
    requires CoarseTable(previous) && CoarseTable(current)
    ensures forall k :: 0 <= k < |BuildTasks(revision, createdAt, previous, current)| ==>
              SafeTask(BuildTasks(revision, createdAt, previous, current)[k])
  {
    if current != [] {
      RouteTasksSafe(revision, createdAt, previous, current[0]);
      BuiltTasksSafe(revision, createdAt, previous, current[1..]);
    }
  }
}
