/** What a route table means, slot by slot, and the laws of building and overlaying it. */
module RoutingLaws {
  import opened Common
  import opened Slots
  import opened Routing

  ghost predicate Covers(route: Route, scope: Scope, vslot: nat) {
    route.namespace == scope.namespace && route.space == scope.space
    && route.vslotStart <= vslot <= route.vslotEnd
  }

  ghost predicate TaskCovers(task: Task, scope: Scope, vslot: nat) {
    task.namespace == scope.namespace && task.space == scope.space
    && task.vslotStart <= vslot <= task.vslotEnd
  }

  /** A route with its slot range blanked: who serves, not which slots. */
  ghost function Endpoint(route: Route): Route { route.(vslotStart := 0, vslotEnd := 0) }

  /** Everyone who serves `vslot` of `scope`, in table order. */
  ghost function Owners(routes: seq<Route>, scope: Scope, vslot: nat): seq<Route> {
    if routes == [] then []
    else (if Covers(routes[0], scope, vslot) then [Endpoint(routes[0])] else []) + Owners(routes[1..], scope, vslot)
  }

  lemma {:induction false} OwnersConcat(a: seq<Route>, b: seq<Route>, scope: Scope, vslot: nat)
    ensures Owners(a + b, scope, vslot) == Owners(a, scope, vslot) + Owners(b, scope, vslot)
  {
    if a == [] {
      assert a + b == b;
    } else {
      assert (a + b)[1..] == a[1..] + b;
      OwnersConcat(a[1..], b, scope, vslot);
    }
  }

  lemma {:induction false} OwnersUnique(routes: seq<Route>, scope: Scope, vslot: nat, i: nat)
    requires i < |routes| && Covers(routes[i], scope, vslot)
    requires forall j :: 0 <= j < |routes| && j != i ==> !Covers(routes[j], scope, vslot)
    ensures Owners(routes, scope, vslot) == [Endpoint(routes[i])]
  {
    if i == 0 {
      OwnersNone(routes[1..], scope, vslot);
    } else {
      OwnersUnique(routes[1..], scope, vslot, i - 1);
    }
  }

  lemma {:induction false} OwnersNone(routes: seq<Route>, scope: Scope, vslot: nat)
    requires forall j :: 0 <= j < |routes| ==> !Covers(routes[j], scope, vslot)
    ensures Owners(routes, scope, vslot) == []
  {
    if routes != [] { OwnersNone(routes[1..], scope, vslot); }
  }

  /** A sole owner is served by exactly one route of the table. */
  lemma {:induction false} OwnersIndex(routes: seq<Route>, scope: Scope, vslot: nat) returns (i: nat)
    requires |Owners(routes, scope, vslot)| == 1
    ensures i < |routes| && Covers(routes[i], scope, vslot)
    ensures Endpoint(routes[i]) == Owners(routes, scope, vslot)[0]
    ensures forall j :: 0 <= j < |routes| && Covers(routes[j], scope, vslot) ==> j == i
  {
    if Covers(routes[0], scope, vslot) {
      i := 0;
      forall j | 0 < j < |routes| ensures !Covers(routes[j], scope, vslot) {
        if Covers(routes[j], scope, vslot) { OwnersHas(routes[1..], scope, vslot, j - 1); }
      }
    } else {
      i := OwnersIndex(routes[1..], scope, vslot);
      i := i + 1;
    }
  }

  lemma {:induction false} OwnersHas(routes: seq<Route>, scope: Scope, vslot: nat, j: nat)
    requires j < |routes| && Covers(routes[j], scope, vslot)
    ensures |Owners(routes, scope, vslot)| >= 1
  {
    if j > 0 { OwnersHas(routes[1..], scope, vslot, j - 1); }
  }

  lemma {:induction false} OwnersRemove(b: seq<Route>, i: nat, scope: Scope, vslot: nat)
    requires i < |b|
    ensures multiset(Owners(b, scope, vslot))
         == multiset(Owners([b[i]], scope, vslot)) + multiset(Owners(b[..i] + b[i + 1..], scope, vslot))
  {
    var l, m, r := b[..i], [b[i]], b[i + 1..];
    calc {
      Owners(b, scope, vslot);
      { assert b == l + (m + r); OwnersConcat(l, m + r, scope, vslot); }
      Owners(l, scope, vslot) + Owners(m + r, scope, vslot);
      { OwnersConcat(m, r, scope, vslot); }
      Owners(l, scope, vslot) + (Owners(m, scope, vslot) + Owners(r, scope, vslot));
    }
    OwnersConcat(l, r, scope, vslot);
  }

  lemma MultisetRemove<T>(a: seq<T>, b: seq<T>, i: nat)
    requires a != [] && i < |b| && b[i] == a[0] && multiset(a) == multiset(b)
    ensures multiset(a[1..]) == multiset(b[..i] + b[i + 1..])
  {
    assert a == [a[0]] + a[1..];
    assert multiset(a) == multiset{a[0]} + multiset(a[1..]);
    assert b == b[..i] + [b[i]] + b[i + 1..];
    assert multiset(b) == multiset{b[i]} + multiset(b[..i] + b[i + 1..]);
    assert multiset(a[1..]) == multiset(a) - multiset{a[0]};
    assert multiset(b[..i] + b[i + 1..]) == multiset(b) - multiset{a[0]};
  }

  lemma {:induction false} OwnersMultiset(a: seq<Route>, b: seq<Route>, scope: Scope, vslot: nat)
    requires multiset(a) == multiset(b)
    ensures multiset(Owners(a, scope, vslot)) == multiset(Owners(b, scope, vslot))
    decreases |a|
  {
    hide Owners;
    if a == [] {
      assert |multiset(b)| == 0;
      assert a == b;
    } else {
      var i := IndexIn(a, b);
      MultisetRemove(a, b, i);
      OwnersMultiset(a[1..], b[..i] + b[i + 1..], scope, vslot);
      OwnersRemove(b, i, scope, vslot);
      assert [a[0]] + a[1..] == a;
      OwnersConcat([a[0]], a[1..], scope, vslot);
    }
  }

  lemma IndexIn<T>(a: seq<T>, b: seq<T>) returns (i: nat)
    requires a != [] && multiset(a) == multiset(b)
    ensures i < |b| && b[i] == a[0]
  {
    assert a[0] in multiset(b);
    i :| 0 <= i < |b| && b[i] == a[0];
  }

  // ---------------------------------------------------------------- the base table

  ghost predicate DistinctScopes(spaces: seq<Space>) {
    forall i, j :: 0 <= i < j < |spaces| ==> ScopeOf(spaces[i]) != ScopeOf(spaces[j])
  }

  lemma SpaceOwners(healthy: seq<Node>, scope: Scope, at: Scope, vslot: nat, i: nat)
    requires 0 < |healthy| && SoleOwner(i, |healthy|, vslot)
    ensures Owners(RoutesForSpace(healthy, scope), at, vslot)
         == if scope == at then [Endpoint(RouteFor(healthy, scope, i))] else []
  {
    var routes := RoutesForSpace(healthy, scope);
    if scope == at {
      forall j | 0 <= j < |routes| && j != i ensures !Covers(routes[j], at, vslot) {
        assert routes[j] == RouteFor(healthy, scope, j);
        assert !InRange(j, |healthy|, vslot);
      }
      assert routes[i] == RouteFor(healthy, scope, i);
      OwnersUnique(routes, at, vslot, i);
    } else {
      OwnersNone(routes, at, vslot);
    }
  }

  lemma {:induction false} SpacesOwners(healthy: seq<Node>, spaces: seq<Space>, at: Scope, vslot: nat, i: nat)
    requires 0 < |healthy| && SoleOwner(i, |healthy|, vslot)
    requires DistinctScopes(spaces)
    ensures Owners(RoutesForSpaces(healthy, spaces), at, vslot)
         == if exists k :: 0 <= k < |spaces| && ScopeOf(spaces[k]) == at
            then [Endpoint(RouteFor(healthy, at, i))] else []
  {
    if spaces != [] {
      var head := RoutesForSpace(healthy, ScopeOf(spaces[0]));
      OwnersConcat(head, RoutesForSpaces(healthy, spaces[1..]), at, vslot);
      SpaceOwners(healthy, ScopeOf(spaces[0]), at, vslot, i);
      SpacesOwners(healthy, spaces[1..], at, vslot, i);
      var tail := spaces[1..];
      assert forall k :: 0 < k < |spaces| ==> spaces[k] == tail[k - 1];
      if ScopeOf(spaces[0]) == at {
        assert forall k :: 0 <= k < |tail| ==> ScopeOf(tail[k]) != at;
      } else {
        assert (exists k :: 0 <= k < |spaces| && ScopeOf(spaces[k]) == at) ==>
          exists k :: 0 <= k < |tail| && ScopeOf(tail[k]) == at by {
          if k :| 0 <= k < |spaces| && ScopeOf(spaces[k]) == at {
            assert ScopeOf(tail[k - 1]) == at;
          }
        }
        if k :| 0 <= k < |tail| && ScopeOf(tail[k]) == at {
          assert ScopeOf(spaces[k + 1]) == at;
        }
      }
    }
  }

  ghost predicate Registered(spaces: seq<Space>, scope: Scope) {
    exists k :: 0 <= k < |spaces| && ScopeOf(spaces[k]) == scope
  }

  /** Every slot of every registered space has exactly one owner in the base table: the node
      whose range holds the slot. */
  lemma BaseOwner(nodes: seq<Node>, spaces: seq<Space>, scope: Scope, vslot: nat) returns (i: nat)
    requires 1 <= |HealthyNodes(nodes)| <= VSLOT_COUNT && vslot <= VSLOT_MAX
    requires DistinctScopes(spaces) && Registered(spaces, scope)
    ensures SoleOwner(i, |HealthyNodes(nodes)|, vslot)
    ensures Owners(RoutesForNodes(nodes, spaces), scope, vslot)
         == [Endpoint(RouteFor(HealthyNodes(nodes), scope, i))]
  {
    i := SoleOwnerExists(|HealthyNodes(nodes)|, vslot);
    SpacesOwners(HealthyNodes(nodes), spaces, scope, vslot, i);
  }

  // ---------------------------------------------------------------- the overlay

  ghost function Replaced(owners: seq<Route>, source: Route): seq<Route> {
    seq(|owners|, _ => source)
  }

  /** Overlaying a task hands exactly the slots it covers to the task's source. */
  lemma {:induction false} OverrideOwners(routes: seq<Route>, task: Task, scope: Scope, vslot: nat)
    ensures Owners(Override(routes, task), scope, vslot)
         == if TaskCovers(task, scope, vslot) then Replaced(Owners(routes, scope, vslot), SourceRoute(task))
            else Owners(routes, scope, vslot)
  {
    if routes != [] {
      var pieces := OverridePieces(routes[0], task);
      OwnersConcat(pieces, Override(routes[1..], task), scope, vslot);
      OverrideOwners(routes[1..], task, scope, vslot);
      PieceOwners(routes[0], task, scope, vslot);
    }
  }

  lemma PieceOwners(route: Route, task: Task, scope: Scope, vslot: nat)
    ensures Owners(OverridePieces(route, task), scope, vslot)
         == if Covers(route, scope, vslot)
            then [if TaskCovers(task, scope, vslot) then SourceRoute(task) else Endpoint(route)]
            else []
  {
    var pieces := OverridePieces(route, task);
    var start := Max(route.vslotStart, task.vslotStart);
    var end := Min(route.vslotEnd, task.vslotEnd);
    if Covers(route, scope, vslot) {
      var left := if route.vslotStart < start then 1 else 0;
      var k := if |pieces| == 1 || vslot < start then 0 else if vslot <= end then left else left + 1;
      OwnersUnique(pieces, scope, vslot, k);
    } else {
      OwnersNone(pieces, scope, vslot);
    }
  }

  /** The owner of a slot after overlaying `tasks` in order on a table where it is `base`. */
  ghost function OverlayOwner(base: Route, tasks: seq<Task>, scope: Scope, vslot: nat): Route
    decreases tasks
  {
    if tasks == [] then base
    else OverlayOwner(if RoutesSource(tasks[0]) && TaskCovers(tasks[0], scope, vslot) then SourceRoute(tasks[0]) else base,
                      tasks[1..], scope, vslot)
  }

  lemma {:induction false} ApplyTasksOwner(routes: seq<Route>, tasks: seq<Task>, scope: Scope, vslot: nat, base: Route)
    requires Owners(routes, scope, vslot) == [base]
    ensures Owners(ApplyTasks(routes, tasks), scope, vslot) == [OverlayOwner(base, tasks, scope, vslot)]
    decreases tasks
  {
    if tasks != [] {
      OverrideOwners(routes, tasks[0], scope, vslot);
      var next := if RoutesSource(tasks[0]) then Override(routes, tasks[0]) else routes;
      var owner := if RoutesSource(tasks[0]) && TaskCovers(tasks[0], scope, vslot) then SourceRoute(tasks[0]) else base;
      ApplyTasksOwner(next, tasks[1..], scope, vslot, owner);
    }
  }

  ghost predicate Diverts(task: Task, scope: Scope, vslot: nat) {
    RoutesSource(task) && TaskCovers(task, scope, vslot)
  }

  ghost predicate LastDiverting(tasks: seq<Task>, k: nat, scope: Scope, vslot: nat) {
    k < |tasks| && Diverts(tasks[k], scope, vslot)
    && forall l :: k < l < |tasks| ==> !Diverts(tasks[l], scope, vslot)
  }

  /** `OverlayOwner` is the source of the last diverting task, or else the base owner. */
  lemma {:induction false} OverlayOwnerIsLast(base: Route, tasks: seq<Task>, scope: Scope, vslot: nat)
    ensures (forall k :: 0 <= k < |tasks| ==> !Diverts(tasks[k], scope, vslot)) ==>
              OverlayOwner(base, tasks, scope, vslot) == base
    ensures forall k :: 0 <= k < |tasks| && LastDiverting(tasks, k, scope, vslot) ==>
              OverlayOwner(base, tasks, scope, vslot) == SourceRoute(tasks[k])
    decreases tasks
  {
    if tasks != [] {
      var owner := if Diverts(tasks[0], scope, vslot) then SourceRoute(tasks[0]) else base;
      var rest := tasks[1..];
      OverlayOwnerIsLast(owner, rest, scope, vslot);
      forall k | 0 <= k < |tasks| && LastDiverting(tasks, k, scope, vslot)
        ensures OverlayOwner(base, tasks, scope, vslot) == SourceRoute(tasks[k])
      {
        if k == 0 {
          assert forall l :: 0 <= l < |rest| ==> rest[l] == tasks[l + 1];
        } else {
          assert forall l :: k - 1 <= l < |rest| ==> rest[l] == tasks[l + 1];
          assert LastDiverting(rest, k - 1, scope, vslot);
        }
      }
    }
  }

  /** Effective routing is total and single-valued: every slot of every registered space has
      exactly one owner in the effective table, the source of the last outstanding task that
      covers the slot, or the base owner when there is none. */
  lemma EffectiveOwner(nodes: seq<Node>, spaces: seq<Space>, tasks: seq<Task>, scope: Scope, vslot: nat)
    returns (i: nat)
    requires 1 <= |HealthyNodes(nodes)| <= VSLOT_COUNT && vslot <= VSLOT_MAX
    requires DistinctScopes(spaces) && Registered(spaces, scope)
    ensures SoleOwner(i, |HealthyNodes(nodes)|, vslot)
    ensures Owners(EffectiveRoutes(RoutesForNodes(nodes, spaces), tasks), scope, vslot)
         == [OverlayOwner(Endpoint(RouteFor(HealthyNodes(nodes), scope, i)), tasks, scope, vslot)]
  {
    i := BaseOwner(nodes, spaces, scope, vslot);
    var base := RoutesForNodes(nodes, spaces);
    ApplyTasksOwner(base, tasks, scope, vslot, Endpoint(RouteFor(HealthyNodes(nodes), scope, i)));
    var overlaid := ApplyTasks(base, tasks);
    var sorted := EffectiveRoutes(base, tasks);
    OwnersMultiset(sorted, overlaid, scope, vslot);
    var owner := Owners(overlaid, scope, vslot)[0];
    assert multiset(Owners(sorted, scope, vslot)) == multiset{owner};
    SingletonFromMultiset(Owners(sorted, scope, vslot), owner);
  }

  lemma SingletonFromMultiset<T>(xs: seq<T>, x: T)
    requires multiset(xs) == multiset{x}
    ensures xs == [x]
  {
    assert |xs| == |multiset(xs)| == 1;
    assert xs[0] in multiset(xs);
  }

  // ---------------------------------------------------------------- selection

  /** No route of the table is spelled `[0, 0]`, which selection reads as "all slots". */
  ghost predicate Wide(routes: seq<Route>) {
    forall k :: 0 <= k < |routes| ==> routes[k].vslotStart != 0 || routes[k].vslotEnd != 0
  }

  ghost predicate Addressed(routes: seq<Route>) {
    forall k :: 0 <= k < |routes| ==> routes[k].addr != []
  }

  /** Overlaying this task cannot create a `[0, 0]` piece, nor one without an address. */
  ghost predicate SafeTask(task: Task) {
    task.vslotStart != 1 && task.vslotEnd != 0 && task.sourceAddr != []
  }

  lemma {:induction false} OverrideKeepsShape(routes: seq<Route>, task: Task)
    requires Wide(routes) && Addressed(routes) && SafeTask(task)
    ensures Wide(Override(routes, task)) && Addressed(Override(routes, task))
  {
    if routes != [] {
      OverrideKeepsShape(routes[1..], task);
      var pieces := OverridePieces(routes[0], task);
      assert Wide(pieces) && Addressed(pieces);
    }
  }

  lemma {:induction false} ApplyTasksKeepsShape(routes: seq<Route>, tasks: seq<Task>)
    requires Wide(routes) && Addressed(routes)
    requires forall k :: 0 <= k < |tasks| ==> SafeTask(tasks[k])
    ensures Wide(ApplyTasks(routes, tasks)) && Addressed(ApplyTasks(routes, tasks))
    decreases tasks
  {
    if tasks != [] {
      OverrideKeepsShape(routes, tasks[0]);
      ApplyTasksKeepsShape(if RoutesSource(tasks[0]) then Override(routes, tasks[0]) else routes, tasks[1..]);
    }
  }

  lemma {:induction false} SelectSoleOwner(routes: seq<Route>, scope: Scope, vslot: nat)
    requires Wide(routes) && Addressed(routes)
    requires |Owners(routes, scope, vslot)| == 1
    ensures
      var selected := FirstMatch(routes, scope, vslot, ExactRoute);
      && SelectSpec(routes, scope, vslot) == selected
      && selected.Some? && Covers(selected.value, scope, vslot)
      && Endpoint(selected.value) == Owners(routes, scope, vslot)[0]
  {
    if !Covers(routes[0], scope, vslot) {
      SelectSoleOwner(routes[1..], scope, vslot);
    }
  }

  lemma {:induction false} SpacesShape(healthy: seq<Node>, spaces: seq<Space>)
    requires 1 <= |healthy| <= 32768
    requires forall k :: 0 <= k < |healthy| ==> healthy[k].addr != []
    ensures Wide(RoutesForSpaces(healthy, spaces)) && Addressed(RoutesForSpaces(healthy, spaces))
  {
    if spaces != [] {
      SpacesShape(healthy, spaces[1..]);
      FirstRangeIsSingleton(|healthy|);
    }
  }

  ghost predicate AddressedNodes(nodes: seq<Node>) {
    forall k :: 0 <= k < |nodes| ==> nodes[k].addr != []
  }

  lemma {:induction false} HealthyAddressed(nodes: seq<Node>)
    requires AddressedNodes(nodes)
    ensures AddressedNodes(HealthyNodes(nodes))
  {
    if nodes != [] { HealthyAddressed(nodes[1..]); }
  }

  lemma PermutationKeepsShape(a: seq<Route>, b: seq<Route>)
    requires multiset(a) == multiset(b) && Wide(a) && Addressed(a)
    ensures Wide(b) && Addressed(b)
  {
    forall k | 0 <= k < |b| ensures (b[k].vslotStart != 0 || b[k].vslotEnd != 0) && b[k].addr != [] {
      assert b[k] in multiset(b);
      assert b[k] in multiset(a);
      assert b[k] in a;
    }
  }

  /** For every key of a registered space, selection on the effective table returns its owner. */
  lemma SelectReturnsOwner(nodes: seq<Node>, spaces: seq<Space>, tasks: seq<Task>, scope: Scope, vslot: nat)
    requires 1 <= |HealthyNodes(nodes)| <= 32768 && vslot <= VSLOT_MAX
    requires DistinctScopes(spaces) && Registered(spaces, scope) && AddressedNodes(nodes)
    requires forall k :: 0 <= k < |tasks| ==> SafeTask(tasks[k])
    ensures
      var effective := EffectiveRoutes(RoutesForNodes(nodes, spaces), tasks);
      var selected := SelectSpec(effective, scope, vslot);
      && selected.Some? && Covers(selected.value, scope, vslot)
      && Owners(effective, scope, vslot) == [Endpoint(selected.value)]
  {
    var base := RoutesForNodes(nodes, spaces);
    var i := EffectiveOwner(nodes, spaces, tasks, scope, vslot);
    HealthyAddressed(nodes);
    SpacesShape(HealthyNodes(nodes), spaces);
    ApplyTasksKeepsShape(base, tasks);
    var effective := EffectiveRoutes(base, tasks);
    PermutationKeepsShape(ApplyTasks(base, tasks), effective);
    SelectSoleOwner(effective, scope, vslot);
  }

  /** The limit is exact: a freshly split space is served slot by slot if and only if there
      are at most 32768 nodes. With more, the first route is `[0, 0]` and takes every key. */
  lemma SelectLimitIsExact(healthy: seq<Node>, scope: Scope)
    requires 1 <= |healthy| <= VSLOT_COUNT && AddressedNodes(healthy)
    ensures (forall vslot: nat :: vslot <= VSLOT_MAX ==> SelectedCovers(RoutesForSpace(healthy, scope), scope, vslot))
            <==> |healthy| <= 32768
  {
    var routes := RoutesForSpace(healthy, scope);
    FirstRangeIsSingleton(|healthy|);
    if |healthy| <= 32768 {
      assert Wide(routes) && Addressed(routes);
      forall vslot: nat | vslot <= VSLOT_MAX ensures SelectedCovers(routes, scope, vslot) {
        var i := SoleOwnerExists(|healthy|, vslot);
        SpaceOwners(healthy, scope, scope, vslot, i);
        SelectSoleOwner(routes, scope, vslot);
      }
    } else {
      Contiguous(0, |healthy|);
      assert routes[0] == RouteFor(healthy, scope, 0);
      assert SelectSpec(routes, scope, 1) == Some(routes[0]);
      assert !SelectedCovers(routes, scope, 1);
    }
  }

  ghost predicate SelectedCovers(routes: seq<Route>, scope: Scope, vslot: nat) {
    var selected := SelectSpec(routes, scope, vslot);
    selected.Some? && Covers(selected.value, scope, vslot)
  }
}
