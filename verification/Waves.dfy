/** Splitting claimed tasks into waves that run in parallel
    (control/migration_executor_batch.go). */
module MigrationWaves {
  import opened Common
  import opened Routing

  datatype Role = SourceRole | TargetRole

  /** What a task occupies at one end. The source spells these as strings with a prefix per kind. */
  datatype NodeKey = ByNode(nodeId: Text) | ByAddr(addr: Text) | UnknownNode(role: Role)

  function NodeKeyOf(nodeId: Text, addr: Text, role: Role): NodeKey {
    if nodeId != [] then ByNode(nodeId) else if addr != [] then ByAddr(addr) else UnknownNode(role)
  }

  function NodeKeys(task: Task): set<NodeKey> {
    {NodeKeyOf(task.sourceNodeId, task.sourceAddr, SourceRole), NodeKeyOf(task.targetNodeId, task.targetAddr, TargetRole)}
  }

  predicate Conflict(a: Task, b: Task) { !(NodeKeys(a) !! NodeKeys(b)) }

  /** The tasks placed in wave `w`, in input order. */
  function Members(tasks: seq<Task>, place: seq<nat>, w: nat): seq<Task>
    requires |tasks| == |place|
  {
    if tasks == [] then []
    else
      var n := |tasks| - 1;
      Members(tasks[..n], place[..n], w) + if place[n] == w then [tasks[n]] else []
  }

  /** The placement is conflict-free, and every task is where it is because it conflicts with an
      earlier task in each wave before its own. */
  ghost predicate Greedy(tasks: seq<Task>, place: seq<nat>, count: nat) {
    && |place| == |tasks|
    && (forall i :: 0 <= i < |place| ==> place[i] < count)
    && (forall w :: 0 <= w < count ==> w in place)
    && (forall i, j :: 0 <= i < j < |place| && place[i] == place[j] ==> !Conflict(tasks[i], tasks[j]))
    && (forall i, w :: 0 <= i < |place| && 0 <= w < place[i] ==> Blocked(tasks, place, i, w))
  }

  ghost predicate Blocked(tasks: seq<Task>, place: seq<nat>, i: nat, w: nat)
    requires |place| <= |tasks| && i < |tasks|
  {
    exists j :: 0 <= j < i && j < |place| && place[j] == w && Conflict(tasks[j], tasks[i])
  }

  ghost predicate UsedBy(tasks: seq<Task>, place: seq<nat>, w: nat, used: set<NodeKey>)
    requires |tasks| == |place|
  {
    forall key :: key in used <==> exists i :: 0 <= i < |tasks| && place[i] == w && key in NodeKeys(tasks[i])
  }

  /** The first wave none of whose tasks shares a node with the task. */
  method WaveIndex(usedNodes: seq<set<NodeKey>>, task: Task) returns (index: nat)
    ensures index <= |usedNodes|
    ensures index < |usedNodes| ==> usedNodes[index] !! NodeKeys(task)
    ensures forall w :: 0 <= w < index ==> !(usedNodes[w] !! NodeKeys(task))
  {
    index := 0;
    while index < |usedNodes|
      invariant index <= |usedNodes| && forall w :: 0 <= w < index ==> !(usedNodes[w] !! NodeKeys(task))
    {
      if usedNodes[index] !! NodeKeys(task) {
        return;
      }
      index := index + 1;
    }
  }

  /** `migrationTaskWaves`: every task is in exactly one wave, waves keep input order, no two tasks
      of a wave share a node, and no task could have gone into an earlier wave. */
  method MigrationTaskWaves(tasks: seq<Task>) returns (waves: seq<seq<Task>>)
    ensures exists place :: GreedyWaves(tasks, place, waves)
  {
    waves := [];
    ghost var place: seq<nat> := [];
    var usedNodes: seq<set<NodeKey>> := [];
    for n := 0 to |tasks|
      invariant |usedNodes| == |waves| && Greedy(tasks[..n], place, |waves|)
      invariant Filled(tasks[..n], place, waves, usedNodes)
    {
      hide Greedy, Filled, NodeKeys;
      var index := WaveIndex(usedNodes, tasks[n]);
      PlaceTask(tasks, n, place, waves, usedNodes, index);
      if index == |waves| {
        waves := waves + [[]];
        usedNodes := usedNodes + [{}];
      }
      waves := waves[index := waves[index] + [tasks[n]]];
      usedNodes := usedNodes[index := usedNodes[index] + NodeKeys(tasks[n])];
      place := place + [index];
    }
    assert tasks[..|tasks|] == tasks;
    assert GreedyWaves(tasks, place, waves);
  }

  /** The waves are those of a greedy placement of the tasks. */
  ghost predicate GreedyWaves(tasks: seq<Task>, place: seq<nat>, waves: seq<seq<Task>>) {
    Greedy(tasks, place, |waves|) && forall w :: 0 <= w < |waves| ==> waves[w] == Members(tasks, place, w)
  }

  /** The waves hold the tasks placed in them, and the node sets those tasks' nodes. */
  ghost predicate Filled(tasks: seq<Task>, place: seq<nat>, waves: seq<seq<Task>>, usedNodes: seq<set<NodeKey>>) {
    && |tasks| == |place| && |waves| == |usedNodes|
    && forall w :: 0 <= w < |waves| ==> waves[w] == Members(tasks, place, w) && UsedBy(tasks, place, w, usedNodes[w])
  }

  lemma PlaceTask(tasks: seq<Task>, n: nat, place: seq<nat>, waves: seq<seq<Task>>, usedNodes: seq<set<NodeKey>>, index: nat)
    requires n < |tasks| && Greedy(tasks[..n], place, |waves|) && Filled(tasks[..n], place, waves, usedNodes)
    requires index <= |usedNodes| && (index < |usedNodes| ==> usedNodes[index] !! NodeKeys(tasks[n]))
    requires forall w :: 0 <= w < index ==> !(usedNodes[w] !! NodeKeys(tasks[n]))
    ensures
      var grown := if index == |waves| then waves + [[]] else waves;
      var used := if index == |waves| then usedNodes + [{}] else usedNodes;
      && Greedy(tasks[..n + 1], place + [index], |grown|)
      && Filled(tasks[..n + 1], place + [index], grown[index := grown[index] + [tasks[n]]],
                used[index := used[index] + NodeKeys(tasks[n])])
  {
    hide NodeKeys, Members, UsedBy;
    PlaceNext(tasks, n, place, usedNodes, index);
    hide Greedy;
    FreshWave(tasks[..n], place, |waves|);
    var grown := if index == |waves| then waves + [[]] else waves;
    var used := if index == |waves| then usedNodes + [{}] else usedNodes;
    var more, wider := tasks[..n + 1], place + [index];
    var waves2, used2 := grown[index := grown[index] + [tasks[n]]], used[index := used[index] + NodeKeys(tasks[n])];
    forall w | 0 <= w < |waves2| ensures waves2[w] == Members(more, wider, w) && UsedBy(more, wider, w, used2[w]) {
      assert grown[w] == Members(tasks[..n], place, w) && UsedBy(tasks[..n], place, w, used[w]);
      NextMembers(tasks, n, place, index, w, used[w]);
    }
  }

  lemma {:induction false} FreshWave(tasks: seq<Task>, place: seq<nat>, count: nat)
    requires |tasks| == |place| && forall i :: 0 <= i < |place| ==> place[i] < count
    ensures UsedBy(tasks, place, count, {}) && Members(tasks, place, count) == []
  {
    if tasks != [] { FreshWave(tasks[..|tasks| - 1], place[..|tasks| - 1], count); }
  }

  lemma NextMembers(tasks: seq<Task>, n: nat, place: seq<nat>, index: nat, w: nat, used: set<NodeKey>)
    requires n < |tasks| && |place| == n && UsedBy(tasks[..n], place, w, used)
    ensures Members(tasks[..n + 1], place + [index], w) == Members(tasks[..n], place, w) + if w == index then [tasks[n]] else []
    ensures UsedBy(tasks[..n + 1], place + [index], w, if w == index then used + NodeKeys(tasks[n]) else used)
  {
    hide NodeKeys;
    assert tasks[..n + 1][..n] == tasks[..n] && (place + [index])[..n] == place;
    var next := if w == index then used + NodeKeys(tasks[n]) else used;
    forall key ensures key in next <==> exists i :: 0 <= i < n + 1 && (place + [index])[i] == w && key in NodeKeys(tasks[..n + 1][i]) {
      if key in used {
        var i :| 0 <= i < n && place[i] == w && key in NodeKeys(tasks[..n][i]);
        assert tasks[..n + 1][i] == tasks[..n][i] && (place + [index])[i] == place[i];
      }
      if w == index && key in NodeKeys(tasks[n]) {
        assert tasks[..n + 1][n] == tasks[n] && (place + [index])[n] == index;
      }
      if i :| 0 <= i < n + 1 && (place + [index])[i] == w && key in NodeKeys(tasks[..n + 1][i]) {
        if i < n { assert place[i] == w && key in NodeKeys(tasks[..n][i]); }
      }
    }
  }

  /** Placing one more task greedily. */
  lemma PlaceNext(tasks: seq<Task>, n: nat, place: seq<nat>, usedNodes: seq<set<NodeKey>>, index: nat)
    requires n < |tasks| && Greedy(tasks[..n], place, |usedNodes|)
    requires forall w :: 0 <= w < |usedNodes| ==> UsedBy(tasks[..n], place, w, usedNodes[w])
    requires index <= |usedNodes| && (index < |usedNodes| ==> usedNodes[index] !! NodeKeys(tasks[n]))
    requires forall w :: 0 <= w < index ==> !(usedNodes[w] !! NodeKeys(tasks[n]))
    ensures Greedy(tasks[..n + 1], place + [index], if index == |usedNodes| then index + 1 else |usedNodes|)
    ensures |place| == n && forall i :: 0 <= i < n ==> place[i] < |usedNodes|
  {
    hide NodeKeys;
    var more, wider := tasks[..n + 1], place + [index];
    assert forall i :: 0 <= i < n ==> more[i] == tasks[..n][i] && wider[i] == place[i];
    assert wider[n] == index;
    forall w | 0 <= w < (if index == |usedNodes| then index + 1 else |usedNodes|) ensures w in wider {
      if w < |usedNodes| { assert w in place; }
    }
    forall i | 0 <= i < n && place[i] == index ensures !Conflict(more[i], more[n]) {
      assert UsedBy(tasks[..n], place, index, usedNodes[index]);
      forall key | key in NodeKeys(tasks[..n][i]) ensures key in usedNodes[index] { }
    }
    forall i, w | 0 <= i < |wider| && 0 <= w < wider[i] ensures Blocked(more, wider, i, w) {
      if i < n {
        assert Blocked(tasks[..n], place, i, w);
        var j :| 0 <= j < i && place[j] == w && Conflict(tasks[..n][j], tasks[..n][i]);
        assert wider[j] == w && Conflict(more[j], more[i]);
      } else {
        assert UsedBy(tasks[..n], place, w, usedNodes[w]);
        var key :| key in usedNodes[w] && key in NodeKeys(tasks[n]);
        var j :| 0 <= j < n && place[j] == w && key in NodeKeys(tasks[..n][j]);
        assert wider[j] == w && Conflict(more[j], more[n]);
      }
    }
  }

  // ---------------------------------------------------------------- how many waves

  ghost function EarlierConflicts(tasks: seq<Task>, i: nat): set<nat>
    requires i < |tasks|
  {
    set j: nat | j < i && Conflict(tasks[j], tasks[i])
  }

  /** A task's wave is at most the number of earlier tasks it conflicts with. */
  lemma {:induction false} WaveBound(tasks: seq<Task>, place: seq<nat>, count: nat, i: nat, w: nat) returns (blockers: set<nat>)
    requires Greedy(tasks, place, count) && i < |tasks| && w <= place[i]
    ensures blockers <= EarlierConflicts(tasks, i) && |blockers| == w
    ensures forall j :: j in blockers ==> j < |place| && place[j] < w
  {
    if w == 0 {
      blockers := {};
    } else {
      blockers := WaveBound(tasks, place, count, i, w - 1);
      assert Blocked(tasks, place, i, w - 1);
      var j :| 0 <= j < i && place[j] == w - 1 && Conflict(tasks[j], tasks[i]);
      blockers := blockers + {j};
    }
  }

  lemma SubsetSize<T>(a: set<T>, b: set<T>)
    requires a <= b
    ensures |a| <= |b|
  {
    assert b == a + (b - a);
  }

  /** The number of waves is at most one more than the largest number of earlier conflicts. */
  lemma WaveCountBound(tasks: seq<Task>, place: seq<nat>, count: nat, most: nat)
    requires Greedy(tasks, place, count) && count > 0
    requires forall i :: 0 <= i < |tasks| ==> |EarlierConflicts(tasks, i)| <= most
    ensures count <= most + 1
  {
    assert count - 1 in place;
    var i :| 0 <= i < |place| && place[i] == count - 1;
    var blockers := WaveBound(tasks, place, count, i, place[i]);
    SubsetSize(blockers, EarlierConflicts(tasks, i));
  }

  /** Every task is in exactly one wave: together the waves hold the input, task for task. */
  lemma {:induction false} WavesPartition(tasks: seq<Task>, place: seq<nat>, count: nat)
    requires |tasks| == |place| && forall i :: 0 <= i < |place| ==> place[i] < count
    ensures Gathered(tasks, place, count) == multiset(tasks)
    decreases |tasks|
  {
    hide Gathered;
    if tasks == [] {
      GatheredNone(tasks, place, count);
    } else {
      var n := |tasks| - 1;
      WavesPartition(tasks[..n], place[..n], count);
      GatheredOneMore(tasks, place, count);
      assert tasks == tasks[..n] + [tasks[n]];
    }
  }

  /** The first `count` waves taken together. */
  ghost function Gathered(tasks: seq<Task>, place: seq<nat>, count: nat): multiset<Task>
    requires |tasks| == |place|
  {
    if count == 0 then multiset{} else Gathered(tasks, place, count - 1) + multiset(Members(tasks, place, count - 1))
  }

  lemma {:induction false} GatheredNone(tasks: seq<Task>, place: seq<nat>, count: nat)
    requires tasks == [] && place == []
    ensures Gathered(tasks, place, count) == multiset{}
  {
    if count > 0 { GatheredNone(tasks, place, count - 1); }
  }

  lemma {:induction false} GatheredOneMore(tasks: seq<Task>, place: seq<nat>, count: nat)
    requires |tasks| == |place| > 0
    ensures
      var n := |tasks| - 1;
      Gathered(tasks, place, count) == Gathered(tasks[..n], place[..n], count) + if place[n] < count then multiset{tasks[n]} else multiset{}
  {
    hide Members;
    if count > 0 {
      GatheredOneMore(tasks, place, count - 1);
      OneMoreMember(tasks, place, count - 1);
    }
  }

  lemma OneMoreMember(tasks: seq<Task>, place: seq<nat>, w: nat)
    requires |tasks| == |place| > 0
    ensures
      var n := |tasks| - 1;
      multiset(Members(tasks, place, w))
        == multiset(Members(tasks[..n], place[..n], w)) + if place[n] == w then multiset{tasks[n]} else multiset{}
  {
    var n := |tasks| - 1;
    var before, after := Members(tasks[..n], place[..n], w), Members(tasks, place, w);
    var added: seq<Task> := if place[n] == w then [tasks[n]] else [];
    assert after == before + added;
    hide Members;
    assert multiset(after) == multiset(before) + multiset(added);
  }
}
