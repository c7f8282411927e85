/** Range fences: a node refuses writes to ranges that are being moved away
    (transport/tcp/range_fence.go, server_fence.go, server_fence_batch.go). */
module Fences {
  import opened Entries
  import opened Removal

  /** Fences have the shape of ranges. */
  type Fence = RangeOptions

  function AddFence(ranges: seq<Fence>, fence: Fence): seq<Fence> {
    if fence in ranges then ranges else ranges + [fence]
  }

  function RemoveFence(ranges: seq<Fence>, fence: Fence): seq<Fence> {
    if ranges == [] then []
    else (if ranges[0] == fence then [] else [ranges[0]]) + RemoveFence(ranges[1..], fence)
  }

  predicate ContainsKey(slot: SlotFunction, ranges: seq<Fence>, key: Key) {
    exists i :: 0 <= i < |ranges| && KeyInRange(slot, key, ranges[i])
  }

  lemma {:induction false} RemovedFences(ranges: seq<Fence>, fence: Fence, other: Fence)
    ensures other in RemoveFence(ranges, fence) <==> other in ranges && other != fence
  {
    if ranges != [] {
      RemovedFences(ranges[1..], fence, other);
      assert ranges == [ranges[0]] + ranges[1..];
    }
  }

  /** Adding fences exactly the keys of the range; removing it gives back exactly those that no
      other fence holds. */
  lemma FencedKeys(slot: SlotFunction, ranges: seq<Fence>, fence: Fence, key: Key)
    ensures ContainsKey(slot, AddFence(ranges, fence), key) <==> ContainsKey(slot, ranges, key) || KeyInRange(slot, key, fence)
    ensures ContainsKey(slot, RemoveFence(ranges, fence), key) <==>
              exists other :: other in ranges && other != fence && KeyInRange(slot, key, other)
  {
    var added := AddFence(ranges, fence);
    if i :| 0 <= i < |ranges| && KeyInRange(slot, key, ranges[i]) { assert added[i] == ranges[i]; }
    if KeyInRange(slot, key, fence) {
      assert fence in added;
      var i :| 0 <= i < |added| && added[i] == fence;
    }
    var removed := RemoveFence(ranges, fence);
    if i :| 0 <= i < |removed| && KeyInRange(slot, key, removed[i]) {
      assert removed[i] in removed;
      RemovedFences(ranges, fence, removed[i]);
    }
    if other :| other in ranges && other != fence && KeyInRange(slot, key, other) {
      RemovedFences(ranges, fence, other);
      var i :| 0 <= i < |removed| && removed[i] == other;
      assert KeyInRange(slot, key, removed[i]);
    }
  }

  class RangeFenceSet {
    var ranges: seq<Fence>

    constructor ()
      ensures ranges == []
    {
      ranges := [];
    }

    method Add(fence: Fence)
      modifies this
      ensures ranges == AddFence(old(ranges), fence)
    {
      for i := 0 to |ranges|
        invariant fence !in ranges[..i] && ranges == old(ranges)
      {
        if ranges[i] == fence {
          return;
        }
      }
      assert ranges[..|ranges|] == ranges;
      ranges := ranges + [fence];
    }

    method Remove(fence: Fence)
      modifies this
      ensures ranges == RemoveFence(old(ranges), fence)
    {
      var next: seq<Fence> := [];
      for i := 0 to |ranges|
        invariant ranges == old(ranges) && next + RemoveFence(ranges[i..], fence) == RemoveFence(ranges, fence)
      {
        if ranges[i] != fence {
          next := next + [ranges[i]];
        }
      }
      ranges := next;
    }

    method Contains(slot: SlotFunction, key: Key) returns (found: bool)
      ensures found == ContainsKey(slot, ranges, key)
    {
      for i := 0 to |ranges|
        invariant forall j :: 0 <= j < i ==> !KeyInRange(slot, key, ranges[j])
      {
        if KeyInRange(slot, key, ranges[i]) {
          return true;
        }
      }
      found := false;
    }

    /** `fencedMutation`: a frame is refused when any key it writes is fenced. */
    method FencedMutation(slot: SlotFunction, frame: seq<Item>) returns (fenced: bool)
      ensures fenced == FencedFrame(slot, ranges, frame)
    {
      if ranges == [] {
        return false;
      }
      var keys := MutationKeys(frame);
      for i := 0 to |keys|
        invariant forall j :: 0 <= j < i ==> !ContainsKey(slot, ranges, keys[j])
      {
        var found := Contains(slot, keys[i]);
        if found {
          assert keys[i] in keys;
          ghost var j :| 0 <= j < |frame| && FenceChecked(frame[j].command) && frame[j].key == keys[i];
          return true;
        }
      }
      forall i | 0 <= i < |frame| && FenceChecked(frame[i].command) ensures !ContainsKey(slot, ranges, frame[i].key) {
        assert frame[i].key in keys;
      }
      fenced := false;
    }
  }

  /** One request of a frame; a batch frame carries several. */
  datatype Item = Item(key: Key, command: Command)

  /** The kinds whose keys are checked against fences. Bitmap writes are not among them. */
  predicate FenceChecked(c: Command) {
    match c
    case Set(_, _) => true
    case Delete(_) => true
    case Touch(_) => true
    case Adjust(_) => true
    case Mutate(m, _, _) => !m.SetBit?
    case _ => false
  }

  predicate FencedFrame(slot: SlotFunction, ranges: seq<Fence>, frame: seq<Item>) {
    exists i :: 0 <= i < |frame| && FenceChecked(frame[i].command) && ContainsKey(slot, ranges, frame[i].key)
  }

  method MutationKeys(frame: seq<Item>) returns (keys: seq<Key>)
    ensures forall k :: k in keys <==> exists i :: 0 <= i < |frame| && FenceChecked(frame[i].command) && frame[i].key == k
  {
    keys := [];
    for i := 0 to |frame|
      invariant forall k :: k in keys <==> exists j :: 0 <= j < i && FenceChecked(frame[j].command) && frame[j].key == k
    {
      if FenceChecked(frame[i].command) {
        keys := keys + [frame[i].key];
      }
    }
  }
}
