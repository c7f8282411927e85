/** One shard worker (cache/engine/worker.go, eviction.go, migration.go, snapshot.go). */
module Shards {
  import opened Common
  import opened Entries
  import opened Accounting
  import opened Removal

  function Elements<T>(xs: seq<T>): set<T> { set x | x in xs }

  function Put<K, V>(m: map<K, V>, k: K, v: Option<V>): map<K, V> {
    if v.Some? then m[k := v.value] else m - {k}
  }

  class Shard {
    var entries: map<Text, Entry>
    var spaces: map<SpaceRef, Usage>
    var objects: nat
    var memoryBytes: nat
    var evictions: nat
    var gets: nat
    var getHits: nat
    var getMisses: nat
    var getExpired: nat
    var touches: nat
    var touchHits: nat
    var touchMisses: nat

    /** The accounting invariant: every counter agrees with the entry map. */
    ghost predicate Valid()
      reads this
    {
      && Filed(entries) && Accounted(entries, spaces, objects, memoryBytes)
      && gets == getHits + getMisses && getExpired <= getMisses && touches == touchHits + touchMisses
    }

    constructor ()
      ensures Valid() && entries == map[]
    {
      entries, spaces := map[], map[];
      objects, memoryBytes, evictions := 0, 0, 0;
      gets, getHits, getMisses, getExpired := 0, 0, 0, 0;
      touches, touchHits, touchMisses := 0, 0, 0;
      new;
      AccountEmpty();
    }

    // ---------------------------------------------------------------- bookkeeping

    method AddSpaceUsage(ref: SpaceRef, count: nat, bytes: nat)
      modifies this`spaces
      ensures spaces == AddUsage(old(spaces), ref, count, bytes)
    {
      var usage := UsageAt(spaces, ref);
      spaces := spaces[ref := Usage(usage.objects + count, usage.memoryBytes + bytes)];
    }

    method SubtractSpaceUsage(ref: SpaceRef, count: nat, bytes: nat)
      requires UsageAt(spaces, ref).objects >= count && UsageAt(spaces, ref).memoryBytes >= bytes
      modifies this`spaces
      ensures spaces == SubtractUsage(old(spaces), ref, count, bytes)
    {
      var usage := UsageAt(spaces, ref);
      usage := Usage(usage.objects - count, usage.memoryBytes - bytes);
      if usage.objects == 0 && usage.memoryBytes == 0 {
        spaces := spaces - {ref};
        return;
      }
      spaces := spaces[ref := usage];
    }

    method InsertEntry(physical: Text, e: Entry)
      requires Valid() && physical !in entries
      requires physical == PhysicalKey(e.key) && EntryFor(e.key, e) && ValidKey(e.key)
      modifies this`entries, this`spaces, this`objects, this`memoryBytes
      ensures Valid() && entries == old(entries)[physical := e]
    {
      hide SpacesAccounted, Total, PhysicalKey, CostOf, ValidKey, AddUsage, SubtractUsage;
      AccountInsert(entries, spaces, physical, e);
      entries := entries[physical := e];
      objects := objects + 1;
      memoryBytes := memoryBytes + e.costBytes;
      AddSpaceUsage(SpaceOf(e.key), 1, e.costBytes);
    }

    method ReplaceEntryCost(key: Key, oldCost: nat, cost: nat)
      requires cost < oldCost ==> memoryBytes >= oldCost - cost && UsageAt(spaces, SpaceOf(key)).memoryBytes >= oldCost - cost
      modifies this`spaces, this`memoryBytes
      ensures memoryBytes == old(memoryBytes) + cost - oldCost
      ensures spaces == if cost >= oldCost then AddUsage(old(spaces), SpaceOf(key), 0, cost - oldCost)
                        else SubtractUsage(old(spaces), SpaceOf(key), 0, oldCost - cost)
    {
      if cost >= oldCost {
        var delta := cost - oldCost;
        memoryBytes := memoryBytes + delta;
        AddSpaceUsage(SpaceOf(key), 0, delta);
        return;
      }
      var delta := oldCost - cost;
      memoryBytes := memoryBytes - delta;
      SubtractSpaceUsage(SpaceOf(key), 0, delta);
    }

    method ReplaceEntry(physical: Text, e: Entry)
      requires Valid() && physical in entries && entries[physical].key == e.key && EntryFor(e.key, e)
      modifies this`entries, this`spaces, this`memoryBytes
      ensures Valid() && entries == old(entries)[physical := e]
    {
      hide SpacesAccounted, Total, PhysicalKey, CostOf, ValidKey, AddUsage, SubtractUsage;
      AccountReplace(entries, spaces, physical, e);
      ReplaceEntryCost(e.key, entries[physical].costBytes, e.costBytes);
      entries := entries[physical := e];
    }

    /** A change of an entry's fields that leaves its key and its value alone. */
    method UpdateEntry(physical: Text, e: Entry)
      requires Valid() && physical in entries && entries[physical].key == e.key && entries[physical].value == e.value
      requires entries[physical].costBytes == e.costBytes && entries[physical].version == e.version
      modifies this`entries
      ensures Valid() && entries == old(entries)[physical := e]
    {
      hide SpacesAccounted, Total, PhysicalKey, CostOf, ValidKey;
      AccountUpdate(entries, spaces, physical, e);
      entries := entries[physical := e];
    }

    method DeleteEntry(physical: Text)
      requires Valid() && physical in entries
      modifies this`entries, this`spaces, this`objects, this`memoryBytes
      ensures Valid() && entries == old(entries) - {physical}
      ensures memoryBytes == old(memoryBytes) - old(entries)[physical].costBytes && objects == old(objects) - 1
    {
      hide SpacesAccounted, Total, PhysicalKey, CostOf, ValidKey, AddUsage, SubtractUsage;
      AccountRemove(entries, spaces, physical);
      var e := entries[physical];
      entries := entries - {physical};
      objects := objects - 1;
      memoryBytes := memoryBytes - e.costBytes;
      SubtractSpaceUsage(SpaceOf(e.key), 1, e.costBytes);
    }

    // ---------------------------------------------------------------- commands on one key

    method ApplySet(physical: Text, key: Key, value: Text, opts: WriteOptions, now: int) returns (reply: Reply)
      requires Valid() && physical == PhysicalKey(key) && ValidKey(key)
      modifies this
      ensures Valid()
      ensures
        var out := SetOutcome(Lookup(old(entries), physical), key, value, opts, now);
        entries == Put(old(entries), physical, out.entry) && reply == out.reply
    {
      SameKey(entries, physical, key);
      if opts.expectedVersion > 0 {
        if physical in entries {
          if entries[physical].version != opts.expectedVersion {
            return Miss;
          }
        } else {
          return Miss;
        }
      }
      var expireAt := ExpiryAfter(opts.ttl, now);
      if physical in entries {
        var e := Overwritten(entries[physical], value, opts, expireAt, now);
        ReplaceEntry(physical, e);
        return Stored(e);
      }
      var e := NewEntry(key, value, opts, expireAt, now);
      InsertEntry(physical, e);
      reply := Stored(e);
    }

    method ApplyGet(physical: Text, opts: GetOptions, now: int) returns (reply: Reply)
      requires Valid()
      modifies this
      ensures Valid()
      ensures
        var out := GetOutcome(Lookup(old(entries), physical), opts, now);
        entries == Put(old(entries), physical, out.entry) && reply == out.reply
    {
      hide Filed, Accounted;
      gets := gets + 1;
      if physical !in entries {
        getMisses := getMisses + 1;
        return Miss;
      }
      var e := entries[physical];
      if Expired(e, now) {
        getExpired := getExpired + 1;
        getMisses := getMisses + 1;
        DeleteEntry(physical);
        return Miss;
      }
      if !Visible(e, opts) {
        getMisses := getMisses + 1;
        return Miss;
      }
      getHits := getHits + 1;
      UpdateEntry(physical, Accessed(e, now));
      reply := Hit(Accessed(e, now));
    }

    method ApplyDelete(physical: Text, expectedVersion: nat) returns (reply: Reply)
      requires Valid()
      modifies this
      ensures Valid()
      ensures
        var out := DeleteOutcome(Lookup(old(entries), physical), expectedVersion);
        entries == Put(old(entries), physical, out.entry) && reply == out.reply
    {
      hide Filed, Accounted;
      if physical !in entries {
        return Miss;
      }
      if expectedVersion > 0 && entries[physical].version != expectedVersion {
        return Miss;
      }
      DeleteEntry(physical);
      reply := Deleted;
    }

    method ApplyTouch(physical: Text, opts: WriteOptions, now: int) returns (reply: Reply)
      requires Valid()
      modifies this
      ensures Valid()
      ensures
        var out := TouchOutcome(Lookup(old(entries), physical), opts, now);
        entries == Put(old(entries), physical, out.entry) && reply == out.reply
    {
      hide Filed, Accounted;
      touches := touches + 1;
      if physical !in entries || opts.ttl < 0 {
        touchMisses := touchMisses + 1;
        return Miss;
      }
      var e := entries[physical];
      if Expired(e, now) {
        touchMisses := touchMisses + 1;
        DeleteEntry(physical);
        return Miss;
      }
      if opts.expectedVersion > 0 && e.version != opts.expectedVersion {
        touchMisses := touchMisses + 1;
        return Miss;
      }
      if !Visible(e, GetOptions(opts.namespaceVersion, opts.spaceVersion)) {
        touchMisses := touchMisses + 1;
        return Miss;
      }
      touchHits := touchHits + 1;
      UpdateEntry(physical, Accessed(e, now).(expireAt := ExpiryAfter(opts.ttl, now), updatedAt := now));
      reply := Touched;
    }

    method ApplyAdjust(codec: Codec, physical: Text, key: Key, opts: AdjustOptions, now: int) returns (reply: Reply)
      requires Valid() && physical == PhysicalKey(key) && ValidKey(key)
      modifies this
      ensures Valid()
      ensures
        var out := AdjustOutcome(codec, Lookup(old(entries), physical), key, opts, now);
        entries == Put(old(entries), physical, out.entry) && reply == out.reply
    {
      SameKey(entries, physical, key);
      hide Filed, Accounted, PhysicalKey, Prepare;
      var prepared := Prepare(codec, Lookup(entries, physical), opts, now);
      match prepared
      case Refused => reply := Miss;
      case Lapsed =>
        DeleteEntry(physical);
        reply := Miss;
      case Broken => reply := Failed(InvalidCounter);
      case Ready(next, expireAt) =>
        var value := codec.format(next);
        if physical in entries {
          var e := Overwritten(entries[physical], value, opts.options, expireAt, now);
          ReplaceEntry(physical, e);
          reply := Stored(e);
        } else {
          var e := NewEntry(key, value, opts.options, expireAt, now);
          InsertEntry(physical, e);
          reply := Stored(e);
        }
    }

    method ApplyAdjustEstimate(codec: Codec, physical: Text, key: Key, opts: AdjustOptions, now: int) returns (reply: Reply)
      requires Valid()
      modifies this
      ensures Valid()
      ensures
        var out := AdjustEstimate(codec, Lookup(old(entries), physical), key, opts, now);
        entries == Put(old(entries), physical, out.entry) && reply == out.reply
    {
      var prepared := Prepare(codec, Lookup(entries, physical), opts, now);
      match prepared
      case Refused => reply := NOT_APPLIED;
      case Lapsed =>
        DeleteEntry(physical);
        reply := NOT_APPLIED;
      case Broken => reply := Failed(InvalidCounter);
      case Ready(next, _) => reply := WriteCost(Lookup(entries, physical), key, codec.format(next));
    }

    /** Drops an expired entry, so that what is left is the live one. */
    method DropExpired(physical: Text, now: int)
      requires Valid()
      modifies this
      ensures Valid() && entries == Put(old(entries), physical, Live(Lookup(old(entries), physical), now))
      ensures Lookup(entries, physical) == Live(Lookup(old(entries), physical), now)
    {
      if physical in entries && Expired(entries[physical], now) {
        DeleteEntry(physical);
      }
    }

    method WriteCollection(codec: Codec, physical: Text, key: Key, c: Collection, opts: WriteOptions, now: int, order: nat,
                           flag: bool, value: Text) returns (reply: Reply)
      requires Valid() && physical == PhysicalKey(key) && ValidKey(key)
      modifies this
      ensures Valid()
      ensures
        var out := WriteBack(codec, Lookup(old(entries), physical), key, c, opts, now, order, flag, value);
        entries == Put(old(entries), physical, out.entry) && reply == out.reply
    {
      SameKey(entries, physical, key);
      var encoded := codec.encode(c, order);
      if encoded.None? {
        return Failed(InvalidCollection);
      }
      var raw := encoded.value;
      if physical !in entries {
        var e := NewEntry(key, raw, opts, PrimitiveExpiry(opts.ttl, now, None), now);
        InsertEntry(physical, e);
        return WriteReply(e, flag, Count(c), value);
      }
      var was := entries[physical];
      if was.value == raw {
        return WriteReply(was, flag, Count(c), value);
      }
      var e := Overwritten(was, raw, opts, PrimitiveExpiry(opts.ttl, now, was.expireAt), now);
      ReplaceEntry(physical, e);
      reply := WriteReply(e, flag, Count(c), value);
    }

    method ApplyMutate(codec: Codec, physical: Text, key: Key, m: Mutation, opts: WriteOptions, now: int, order: nat)
      returns (reply: Reply)
      requires Valid() && physical == PhysicalKey(key) && ValidKey(key)
      modifies this
      ensures Valid()
      ensures
        var out := MutateOutcome(codec, Lookup(old(entries), physical), key, m, opts, now, order);
        entries == Put(old(entries), physical, out.entry) && reply == out.reply
    {
      hide Valid, MutateLive, PhysicalKey, ValidKey;
      if VersionRefused(Lookup(entries, physical), opts.expectedVersion, now) {
        return PRIMITIVE_MISS;
      }
      DropExpired(physical, now);
      reply := ApplyMutateLive(codec, physical, key, m, opts, now, order);
    }

    method ApplyMutateLive(codec: Codec, physical: Text, key: Key, m: Mutation, opts: WriteOptions, now: int, order: nat)
      returns (reply: Reply)
      requires Valid() && physical == PhysicalKey(key) && ValidKey(key)
      modifies this
      ensures Valid()
      ensures
        var out := MutateLive(codec, Lookup(old(entries), physical), key, m, opts, now, order);
        entries == Put(old(entries), physical, out.entry) && reply == out.reply
    {
      hide Valid, MutateLive, PhysicalKey, ValidKey;
      match KindOf(m)
      case MapKind => reply := ApplyMapMutation(codec, physical, key, m, opts, now, order);
      case ListKind => reply := ApplyListMutation(codec, physical, key, m, opts, now, order);
      case BitmapKind => reply := ApplySetBit(codec, physical, key, m, opts, now, order);
    }

    method ApplyMapMutation(codec: Codec, physical: Text, key: Key, m: Mutation, opts: WriteOptions, now: int, order: nat)
      returns (reply: Reply)
      requires Valid() && physical == PhysicalKey(key) && ValidKey(key) && KindOf(m) == MapKind
      modifies this
      ensures Valid()
      ensures
        var out := MutateLive(codec, Lookup(old(entries), physical), key, m, opts, now, order);
        entries == Put(old(entries), physical, out.entry) && reply == out.reply
    {
      hide Valid, WriteBack, PhysicalKey, ValidKey, WriteReply, Loaded;
      var live := Lookup(entries, physical);
      match (Loaded(codec, live, MapKind), m) {
        case (Some(Fields(fields)), MapSet(field, value)) =>
          if live.Some? && field in fields && fields[field] == value {
            return WriteReply(live.value, false, |fields|, []);
          }
          reply := WriteCollection(codec, physical, key, Fields(fields[field := value]), opts, now, order, false, []);
        case (Some(Fields(fields)), MapDelete(field)) =>
          if live.None? {
            return PRIMITIVE_MISS;
          }
          if field !in fields {
            return WriteReply(live.value, false, |fields|, []);
          }
          reply := WriteCollection(codec, physical, key, Fields(fields - {field}), opts, now, order, true, []);
        case _ => reply := Failed(InvalidCollection);
      }
    }

    method ApplyListMutation(codec: Codec, physical: Text, key: Key, m: Mutation, opts: WriteOptions, now: int, order: nat)
      returns (reply: Reply)
      requires Valid() && physical == PhysicalKey(key) && ValidKey(key) && KindOf(m) == ListKind
      modifies this
      ensures Valid()
      ensures
        var out := MutateLive(codec, Lookup(old(entries), physical), key, m, opts, now, order);
        entries == Put(old(entries), physical, out.entry) && reply == out.reply
    {
      hide Valid, WriteBack, PhysicalKey, ValidKey, Pushed, Popped, Loaded;
      var live := Lookup(entries, physical);
      match (Loaded(codec, live, ListKind), m) {
        case (Some(Values(values)), ListPush(value, front)) =>
          reply := WriteCollection(codec, physical, key, Values(Pushed(values, value, front)), opts, now, order, false, []);
        case (Some(Values(values)), ListPop(front)) =>
          if live.None? {
            return PRIMITIVE_MISS;
          }
          if values == [] {
            return Primitive(live, false, false, false, 0, []);
          }
          var popped := if front then values[0] else values[|values| - 1];
          reply := WriteCollection(codec, physical, key, Values(Popped(values, front)), opts, now, order, false, popped);
        case _ => reply := Failed(InvalidCollection);
      }
    }

    method ApplySetBit(codec: Codec, physical: Text, key: Key, m: Mutation, opts: WriteOptions, now: int, order: nat)
      returns (reply: Reply)
      requires Valid() && physical == PhysicalKey(key) && ValidKey(key) && KindOf(m) == BitmapKind
      modifies this
      ensures Valid()
      ensures
        var out := MutateLive(codec, Lookup(old(entries), physical), key, m, opts, now, order);
        entries == Put(old(entries), physical, out.entry) && reply == out.reply
    {
      hide Valid, WriteBack, PhysicalKey, ValidKey, WriteReply, BitSet, Loaded;
      var live := Lookup(entries, physical);
      match (Loaded(codec, live, BitmapKind), m) {
        case (Some(Bits(bits)), SetBit(offset, on)) =>
          if (offset in bits) == on {
            return if live.Some? then WriteReply(live.value, on, |bits|, []) else Primitive(None, false, true, on, 0, []);
          }
          reply := WriteCollection(codec, physical, key, Bits(BitSet(bits, offset, on)), opts, now, order, offset in bits, []);
        case _ => reply := Failed(InvalidCollection);
      }
    }

    method ApplyMutateEstimate(codec: Codec, physical: Text, key: Key, m: Mutation, opts: WriteOptions, now: int, order: nat)
      returns (reply: Reply)
      requires Valid()
      modifies this
      ensures Valid()
      ensures
        var out := MutateEstimate(codec, Lookup(old(entries), physical), key, m, opts, now, order);
        entries == Put(old(entries), physical, out.entry) && reply == out.reply
    {
      hide Valid;
      if VersionRefused(Lookup(entries, physical), opts.expectedVersion, now) {
        return NOT_APPLIED;
      }
      DropExpired(physical, now);
      var live := Lookup(entries, physical);
      match (Loaded(codec, live, KindOf(m)), m) {
        case (Some(Fields(fields)), MapSet(field, value)) =>
          if live.Some? && field in fields && fields[field] == value {
            return Estimate(true, CostAt(live), CostAt(live));
          }
          reply := EstimateBack(codec, live, key, Fields(fields[field := value]), order).reply;
        case (Some(Fields(fields)), MapDelete(field)) =>
          if live.None? {
            return NOT_APPLIED;
          }
          if field !in fields {
            return Estimate(true, CostAt(live), CostAt(live));
          }
          reply := EstimateBack(codec, live, key, Fields(fields - {field}), order).reply;
        case (Some(Values(values)), ListPush(value, front)) =>
          reply := EstimateBack(codec, live, key, Values(Pushed(values, value, front)), order).reply;
        case (Some(Values(values)), ListPop(front)) =>
          if live.None? {
            return NOT_APPLIED;
          }
          if values == [] {
            return Estimate(true, CostAt(live), CostAt(live));
          }
          reply := EstimateBack(codec, live, key, Values(Popped(values, front)), order).reply;
        case (Some(Bits(bits)), SetBit(offset, on)) =>
          reply := EstimateBack(codec, live, key, Bits(BitSet(bits, offset, on)), order).reply;
        case _ => reply := Failed(InvalidCollection);
      }
    }

    /** `shardWorker.apply`: the dispatch of one key command. */
    method Execute(codec: Codec, physical: Text, key: Key, c: Command, now: int) returns (reply: Reply)
      requires Valid() && physical == PhysicalKey(key) && ValidKey(key)
      modifies this
      ensures Valid()
      ensures
        var out := Apply(codec, key, Lookup(old(entries), physical), c, now);
        entries == Put(old(entries), physical, out.entry) && reply == out.reply
    {
      match c
      case Set(value, opts) => reply := ApplySet(physical, key, value, opts, now);
      case Get(opts) => reply := ApplyGet(physical, opts, now);
      case Delete(expected) => reply := ApplyDelete(physical, expected);
      case Touch(opts) => reply := ApplyTouch(physical, opts, now);
      case Adjust(opts) => reply := ApplyAdjust(codec, physical, key, opts, now);
      case EstimateAdjust(opts) => reply := ApplyAdjustEstimate(codec, physical, key, opts, now);
      case Mutate(m, opts, order) => reply := ApplyMutate(codec, physical, key, m, opts, now, order);
      case EstimateMutate(m, opts, order) => reply := ApplyMutateEstimate(codec, physical, key, m, opts, now, order);
    }

    // ---------------------------------------------------------------- commands on many keys

    /** The physical keys of the entries a test selects, in whatever order the map is visited. */
    method Collect(test: Entry -> bool) returns (found: seq<Text>)
      ensures NoDuplicates(found) && (forall p :: p in found <==> p in Selected(entries, test))
      ensures |found| == |Selected(entries, test)|
    {
      found := [];
      var todo := entries.Keys;
      while todo != {}
        invariant todo <= entries.Keys && NoDuplicates(found)
        invariant forall p :: p in found <==> p in entries && p !in todo && test(entries[p])
        decreases |todo|
      {
        var p :| p in todo;
        todo := todo - {p};
        if test(entries[p]) {
          found := found + [p];
        }
      }
      SameSize(found, Selected(entries, test).Keys);
    }

    method DeleteEach(found: seq<Text>)
      requires Valid() && NoDuplicates(found) && forall p :: p in found ==> p in entries
      modifies this`entries, this`spaces, this`objects, this`memoryBytes
      ensures Valid() && entries == old(entries) - Elements(found)
    {
      hide Filed, Accounted;
      assert entries == entries - Elements(found[..0]);
      for i := 0 to |found|
        invariant Valid() && entries == old(entries) - Elements(found[..i])
      {
        assert found[i] !in found[..i];
        DeleteEntry(found[i]);
        assert found[..i + 1] == found[..i] + [found[i]];
        assert Elements(found[..i + 1]) == Elements(found[..i]) + {found[i]};
      }
      assert found[..|found|] == found;
    }

    method SweepExpired(now: int) returns (swept: nat)
      requires Valid()
      modifies this
      ensures Valid() && entries == Rejected(old(entries), ExpiredAt(now))
      ensures swept == |Selected(old(entries), ExpiredAt(now))|
    {
      hide Filed, Accounted;
      var expired := Collect(ExpiredAt(now));
      DeleteEach(expired);
      swept := |expired|;
    }

    method DeleteRange(slot: SlotFunction, r: RangeOptions) returns (deleted: nat)
      requires Valid()
      modifies this
      ensures Valid() && entries == Rejected(old(entries), InRangeOf(slot, r))
      ensures deleted == |Selected(old(entries), InRangeOf(slot, r))|
    {
      hide Filed, Accounted;
      var targets := Collect(InRangeOf(slot, r));
      DeleteEach(targets);
      deleted := |targets|;
    }

    method ExportEntries(slot: SlotFunction, r: RangeOptions, now: int) returns (snaps: seq<Snap>)
      requires Valid()
      ensures Snapped(Selected(entries, ExportedBy(slot, r, now)), snaps)
    {
      hide Filed, Accounted, Snapped;
      ghost var chosen := Selected(entries, ExportedBy(slot, r, now));
      SelectedFiled(entries, ExportedBy(slot, r, now));
      var found := Collect(ExportedBy(slot, r, now));
      snaps := [];
      for i := 0 to |found|
        invariant |snaps| == i && forall j :: 0 <= j < i ==> found[j] in chosen && snaps[j] == SnapOf(chosen[found[j]])
      {
        assert found[i] in chosen;
        snaps := snaps + [SnapOf(entries[found[i]])];
      }
      SnappedInOrder(chosen, found, snaps);
    }

    method SnapshotEntries() returns (snaps: seq<Snap>)
      requires Valid()
      ensures Snapped(Selected(entries, Everything()), snaps)
    {
      hide Filed, Accounted, Snapped;
      ghost var chosen := Selected(entries, Everything());
      SelectedFiled(entries, Everything());
      var found := Collect(Everything());
      snaps := [];
      for i := 0 to |found|
        invariant |snaps| == i && forall j :: 0 <= j < i ==> found[j] in chosen && snaps[j] == SnapOf(chosen[found[j]])
      {
        assert found[i] in chosen;
        snaps := snaps + [SnapOf(entries[found[i]])];
      }
      SnappedInOrder(chosen, found, snaps);
    }

    method ImportEntry(item: Snap) returns (accepted: bool)
      requires Valid() && ValidKey(item.key)
      modifies this
      ensures Valid() && entries == ImportOne(old(entries), EntryOf(item))
      ensures accepted == !(PhysicalKey(item.key) in old(entries) && !ShouldImport(old(entries)[PhysicalKey(item.key)], EntryOf(item)))
    {
      hide Accounted, PhysicalKey, ShouldImport;
      var e := EntryOf(item);
      var physical := PhysicalKey(e.key);
      SameKey(entries, physical, e.key);
      if physical in entries {
        if !ShouldImport(entries[physical], e) {
          return false;
        }
        ReplaceEntry(physical, e);
        return true;
      }
      InsertEntry(physical, e);
      accepted := true;
    }

    /** Imports in order; an invalid key stops it with what came before already stored. */
    method ImportEntries(snaps: seq<Snap>) returns (imported: nat, ok: bool)
      requires Valid()
      modifies this
      ensures Valid() && entries == ImportAll(old(entries), ValidPrefix(snaps))
      ensures imported == AcceptedCount(old(entries), ValidPrefix(snaps))
      ensures ok <==> ValidPrefix(snaps) == snaps
    {
      hide Valid, PhysicalKey, ImportOne, ShouldImport;
      imported := 0;
      for i := 0 to |snaps|
        invariant Valid() && forall j :: 0 <= j < i ==> ValidKey(snaps[j].key)
        invariant entries == ImportAll(old(entries), snaps[..i]) && imported == AcceptedCount(old(entries), snaps[..i])
      {
        if !ValidKey(snaps[i].key) {
          ValidPrefixIs(snaps, i);
          return imported, false;
        }
        assert snaps[..i + 1][..i] == snaps[..i];
        var accepted := ImportEntry(snaps[i]);
        if accepted {
          imported := imported + 1;
        }
      }
      ValidPrefixIs(snaps, |snaps|);
      assert snaps[..|snaps|] == snaps;
      ok := true;
    }

    method StoreRestored(e: Entry)
      modifies this`entries, this`spaces, this`objects, this`memoryBytes
      ensures entries == old(entries)[PhysicalKey(e.key) := e] && spaces == AddUsage(old(spaces), SpaceOf(e.key), 1, e.costBytes)
      ensures objects == old(objects) + 1 && memoryBytes == old(memoryBytes) + e.costBytes
    {
      hide PhysicalKey;
      entries := entries[PhysicalKey(e.key) := e];
      objects := objects + 1;
      memoryBytes := memoryBytes + e.costBytes;
      AddSpaceUsage(SpaceOf(e.key), 1, e.costBytes);
    }

    /** Restoring counts every snapshot it stores, so the counters are exact precisely when no
        key repeats. */
    method RestoreEntries(snaps: seq<Snap>) returns (ok: bool)
      modifies this
      ensures entries == RestoreAll(ValidPrefix(snaps)) && objects == |ValidPrefix(snaps)|
      ensures ok <==> ValidPrefix(snaps) == snaps
      ensures Filed(entries) && (Valid() <==> DistinctKeys(ValidPrefix(snaps)))
    {
      hide RestoredSoFar, Filed, Accounted, RestoreAll, DistinctKeys, ValidKey, ValidPrefix;
      Reset();
      var n := LoadSnapshots(snaps);
      ValidPrefixIs(snaps, n);
      RestoreDone(snaps[..n], entries, spaces, objects, memoryBytes);
      ok := n == |snaps|;
    }

    method Reset()
      modifies this
      ensures entries == map[] && spaces == map[] && objects == 0 && memoryBytes == 0 && evictions == 0
      ensures gets == 0 && getHits == 0 && getMisses == 0 && getExpired == 0 && touches == 0 && touchHits == 0 && touchMisses == 0
    {
      entries, spaces := map[], map[];
      objects, memoryBytes, evictions := 0, 0, 0;
      gets, getHits, getMisses, getExpired := 0, 0, 0, 0;
      touches, touchHits, touchMisses := 0, 0, 0;
    }

    /** Stores the snapshots up to the first with an invalid key. */
    method LoadSnapshots(snaps: seq<Snap>) returns (n: nat)
      requires entries == map[] && spaces == map[] && objects == 0 && memoryBytes == 0
      modifies this`entries, this`spaces, this`objects, this`memoryBytes
      ensures n <= |snaps| && RestoredSoFar(snaps[..n], entries, spaces, objects, memoryBytes)
      ensures (forall j :: 0 <= j < n ==> ValidKey(snaps[j].key)) && (n < |snaps| ==> !ValidKey(snaps[n].key))
    {
      hide RestoredSoFar, AddUsage, PhysicalKey, ValidKey, EntryOf;
      RestoreStart();
      n := 0;
      assert snaps[..n] == [];
      while n < |snaps|
        invariant n <= |snaps| && forall j :: 0 <= j < n ==> ValidKey(snaps[j].key)
        invariant RestoredSoFar(snaps[..n], entries, spaces, objects, memoryBytes)
      {
        if !ValidKey(snaps[n].key) {
          return;
        }
        RestoreStep(snaps, n, entries, spaces, objects, memoryBytes);
        StoreRestored(EntryOf(snaps[n]));
        n := n + 1;
      }
    }

    // ---------------------------------------------------------------- eviction

    /** One pass over the map: the live candidates, the expired ones and the bytes of the latter. */
    method SplitCandidates(opts: EvictOptions) returns (live: seq<Entry>, expired: seq<Text>, freed: nat)
      requires Valid()
      ensures Split(entries, opts, {}, live, expired, freed)
    {
      hide Filed, Accounted, Split;
      live, expired, freed := [], [], 0;
      var excludePhysical := if opts.exclude.Some? then PhysicalKey(opts.exclude.value) else [];
      var todo := entries.Keys;
      SplitStart(entries, opts);
      while todo != {}
        invariant todo <= entries.Keys && Split(entries, opts, todo, live, expired, freed)
        decreases |todo|
      {
        var physical :| physical in todo;
        var e := entries[physical];
        SplitStep(entries, opts, todo, live, expired, freed, physical);
        todo := todo - {physical};
        if EvictionCandidate(e, opts, physical, excludePhysical) {
          if Expired(e, opts.now) {
            freed := freed + e.costBytes;
            expired := expired + [physical];
          } else {
            live := live + [e];
          }
        }
      }
    }

    method CollectEvictionCandidates(opts: EvictOptions) returns (queue: seq<Entry>, freed: nat, evicted: nat)
      requires Valid()
      modifies this`entries, this`spaces, this`objects, this`memoryBytes
      ensures Valid() && Queue(old(entries), opts, queue) && SortedBy(queue, LruLe)
      ensures CutAt(old(entries), entries, opts, queue, 0)
      ensures freed + memoryBytes == old(memoryBytes) && evicted + objects == old(objects)
    {
      hide Filed, SpacesAccounted, LruLe, Queue, CutAt, SortedBy;
      var live, expired;
      live, expired, freed := SplitCandidates(opts);
      evicted := |expired|;
      SplitDone(entries, opts, live, expired, freed);
      DeleteEach(expired);
      queue := Sort(live, LruLe);
      SortedQueue(old(entries), opts, live);
      CutStart(old(entries), opts, queue, expired);
    }

    /** `evict`: expired candidates first, then the least recently used ones until the target is met. */
    method Evict(opts: EvictOptions) returns (freed: nat, evicted: nat)
      requires Valid()
      modifies this
      ensures Valid() && Evicted(old(entries), entries, opts, freed, evicted)
    {
      hide Valid, Filed, Total, PhysicalKey, Queue, CutAt, Evicted, SortedBy, LruLe;
      ValidTotals();
      var queue;
      queue, freed, evicted := CollectEvictionCandidates(opts);
      var n := 0;
      while n < |queue| && freed < opts.targetBytes
        invariant Valid() && n <= |queue| && CutAt(old(entries), entries, opts, queue, n)
        invariant freed + memoryBytes == old(memoryBytes) && evicted + objects == old(objects)
        invariant n > 0 ==> freed < opts.targetBytes + queue[n - 1].costBytes
      {
        freed := freed + queue[n].costBytes;
        evicted := evicted + 1;
        NextQueued(old(entries), entries, opts, queue, n);
        DeleteEntry(PhysicalKey(queue[n].key));
        n := n + 1;
      }
      ValidTotals();
      CutIsEviction(old(entries), entries, opts, queue, n, freed, evicted);
      CountEvictions(evicted);
    }

    method CountEvictions(evicted: nat)
      requires Valid()
      modifies this`evictions
      ensures Valid() && evictions == old(evictions) + evicted
    {
      hide Filed, Accounted;
      if evicted > 0 {
        evictions := evictions + evicted;
      }
    }

    lemma ValidTotals()
      requires Valid()
      ensures Filed(entries) && objects == |entries| && memoryBytes == Total(entries, Cost())
    {
    }
  }

  /** The snapshots are exactly those of the map's entries, each once. */
  ghost predicate Snapped(m: map<Text, Entry>, snaps: seq<Snap>) {
    NoDuplicates(snaps) && forall s :: s in snaps <==> SnapIn(m, s)
  }

  ghost predicate SnapIn(m: map<Text, Entry>, s: Snap) {
    PhysicalKey(s.key) in m && SnapOf(m[PhysicalKey(s.key)]) == s
  }

  ghost predicate RestoredSoFar(done: seq<Snap>, entries: map<Text, Entry>, spaces: map<SpaceRef, Usage>, objects: nat, memoryBytes: nat) {
    && Filed(entries) && entries == RestoreAll(done) && objects == |done| && |entries| <= |done|
    && (|entries| == |done| ==> Accounted(entries, spaces, objects, memoryBytes))
  }

  lemma RestoreStart()
    ensures RestoredSoFar([], map[], map[], 0, 0)
  {
    AccountEmpty();
  }

  lemma RestoreStep(snaps: seq<Snap>, i: nat, entries: map<Text, Entry>, spaces: map<SpaceRef, Usage>, objects: nat, memoryBytes: nat)
    requires i < |snaps| && ValidKey(snaps[i].key) && RestoredSoFar(snaps[..i], entries, spaces, objects, memoryBytes)
    ensures
      var e := EntryOf(snaps[i]);
      RestoredSoFar(snaps[..i + 1], entries[PhysicalKey(e.key) := e], AddUsage(spaces, SpaceOf(e.key), 1, e.costBytes),
                    objects + 1, memoryBytes + e.costBytes)
  {
    hide PhysicalKey, SpacesAccounted, Total, AddUsage, CostOf, ValidKey, Filed;
    var e := EntryOf(snaps[i]);
    var p := PhysicalKey(e.key);
    FiledWith(entries, e);
    assert snaps[..i + 1][..i] == snaps[..i];
    if p in entries {
      assert entries[p := e].Keys == entries.Keys;
    } else {
      assert |entries[p := e]| == |entries| + 1;
      if |entries| == i { AccountInsert(entries, spaces, p, e); }
    }
  }

  lemma FiledWith(entries: map<Text, Entry>, e: Entry)
    requires Filed(entries) && EntryFor(e.key, e) && ValidKey(e.key)
    ensures Filed(entries[PhysicalKey(e.key) := e])
  {
    hide PhysicalKey, CostOf, ValidKey;
  }

  lemma RestoreDone(done: seq<Snap>, entries: map<Text, Entry>, spaces: map<SpaceRef, Usage>, objects: nat, memoryBytes: nat)
    requires RestoredSoFar(done, entries, spaces, objects, memoryBytes)
    ensures entries == RestoreAll(done) && objects == |done|
    ensures Filed(entries) && (Accounted(entries, spaces, objects, memoryBytes) <==> DistinctKeys(done))
  {
    RestoreCount(done);
  }

  lemma SelectedFiled(m: map<Text, Entry>, test: Entry -> bool)
    requires Filed(m)
    ensures Filed(Selected(m, test))
  {
  }

  lemma {:induction false} SnappedInOrder(m: map<Text, Entry>, found: seq<Text>, snaps: seq<Snap>)
    requires NoDuplicates(found) && |found| == |m| && (forall p :: p in found <==> p in m)
    requires Filed(m)
    requires |snaps| == |found| && forall j :: 0 <= j < |found| ==> found[j] in m && snaps[j] == SnapOf(m[found[j]])
    ensures Snapped(m, snaps)
  {
    hide PhysicalKey;
    forall i, j | 0 <= i < j < |snaps| ensures snaps[i] != snaps[j] {
      assert found[i] == PhysicalKey(snaps[i].key) && found[j] == PhysicalKey(snaps[j].key);
    }
    forall s ensures s in snaps <==> SnapIn(m, s) {
      if s in snaps {
        var j :| 0 <= j < |snaps| && snaps[j] == s;
        assert found[j] == PhysicalKey(m[found[j]].key);
      }
      if SnapIn(m, s) {
        var j :| 0 <= j < |found| && found[j] == PhysicalKey(s.key);
        assert snaps[j] == s;
      }
    }
  }

  /** The source's test, on physical keys with the empty one for "no exclusion". */
  predicate EvictionCandidate(e: Entry, opts: EvictOptions, physical: Text, excludePhysical: Text) {
    !(excludePhysical != [] && physical == excludePhysical)
    && e.key.namespace == opts.namespace && e.key.space == opts.space
  }

  lemma CandidateTest(opts: EvictOptions, physical: Text, e: Entry)
    requires physical == PhysicalKey(e.key)
    ensures EvictionCandidate(e, opts, physical, if opts.exclude.Some? then PhysicalKey(opts.exclude.value) else [])
       <==> Candidate(opts, e)
  {
    if opts.exclude.Some? {
      assert |Varint.Uvarint(|opts.exclude.value.namespace|)| > 0;
      hide PhysicalKey;
      if physical == PhysicalKey(opts.exclude.value) { PhysicalKeyInjective(e.key, opts.exclude.value); }
    }
  }

  /** How far the pass over the map has come: `todo` is still unvisited. */
  ghost predicate Split(entries: map<Text, Entry>, opts: EvictOptions, todo: set<Text>, live: seq<Entry>, expired: seq<Text>, freed: nat) {
    SplitLive(entries, opts, todo, live) && SplitExpired(entries, opts, todo, expired, freed)
  }

  ghost predicate SplitLive(entries: map<Text, Entry>, opts: EvictOptions, todo: set<Text>, live: seq<Entry>) {
    NoDuplicates(live) && forall e :: e in live <==> LiveCandidate(entries, opts, e) && PhysicalKey(e.key) !in todo
  }

  ghost predicate SplitExpired(entries: map<Text, Entry>, opts: EvictOptions, todo: set<Text>, expired: seq<Text>, freed: nat) {
    && NoDuplicates(expired)
    && (forall p :: p in expired <==> p in entries && p !in todo && Candidate(opts, entries[p]) && Expired(entries[p], opts.now))
    && Total(entries - Elements(expired), Cost()) + freed == Total(entries, Cost())
  }

  lemma SplitStart(entries: map<Text, Entry>, opts: EvictOptions)
    ensures Split(entries, opts, entries.Keys, [], [], 0)
  {
    hide PhysicalKey;
    assert entries - Elements([]) == entries;
  }

  lemma SplitStep(entries: map<Text, Entry>, opts: EvictOptions, todo: set<Text>, live: seq<Entry>, expired: seq<Text>, freed: nat, p: Text)
    requires Filed(entries) && Split(entries, opts, todo, live, expired, freed) && p in todo && p in entries
    ensures
      var e := entries[p];
      var candidate := EvictionCandidate(e, opts, p, if opts.exclude.Some? then PhysicalKey(opts.exclude.value) else []);
      Split(entries, opts, todo - {p}, if candidate && !Expired(e, opts.now) then live + [e] else live,
            if candidate && Expired(e, opts.now) then expired + [p] else expired,
            if candidate && Expired(e, opts.now) then freed + e.costBytes else freed)
  {
    hide SplitLive, SplitExpired, PhysicalKey, Candidate, Expired, EvictionCandidate;
    CandidateTest(opts, p, entries[p]);
    LiveStep(entries, opts, todo, live, p);
    ExpiredStep(entries, opts, todo, expired, freed, p);
  }

  lemma ExpiredStep(entries: map<Text, Entry>, opts: EvictOptions, todo: set<Text>, expired: seq<Text>, freed: nat, p: Text)
    requires SplitExpired(entries, opts, todo, expired, freed) && p in todo && p in entries
    ensures
      var e := entries[p];
      var gone := Candidate(opts, e) && Expired(e, opts.now);
      SplitExpired(entries, opts, todo - {p}, if gone then expired + [p] else expired, if gone then freed + e.costBytes else freed)
  {
    hide Total, Candidate, Expired;
    if Candidate(opts, entries[p]) && Expired(entries[p], opts.now) {
      assert p !in expired;
      TotalRemove(entries - Elements(expired), p, Cost());
      assert entries - Elements(expired + [p]) == entries - Elements(expired) - {p};
    }
  }

  lemma LiveStep(entries: map<Text, Entry>, opts: EvictOptions, todo: set<Text>, live: seq<Entry>, p: Text)
    requires Filed(entries) && SplitLive(entries, opts, todo, live) && p in todo && p in entries
    ensures
      var e := entries[p];
      SplitLive(entries, opts, todo - {p}, if Candidate(opts, e) && !Expired(e, opts.now) then live + [e] else live)
  {
    hide PhysicalKey, Candidate, Expired;
    var e := entries[p];
    assert p == PhysicalKey(e.key);
    var more := if Candidate(opts, e) && !Expired(e, opts.now) then live + [e] else live;
    forall x ensures x in more <==> LiveCandidate(entries, opts, x) && PhysicalKey(x.key) !in todo - {p} {
      if PhysicalKey(x.key) == p { assert LiveCandidate(entries, opts, x) ==> x == e; }
    }
    assert e !in live;
  }

  lemma SplitDone(entries: map<Text, Entry>, opts: EvictOptions, live: seq<Entry>, expired: seq<Text>, freed: nat)
    requires Split(entries, opts, {}, live, expired, freed)
    ensures NoDuplicates(expired) && forall p :: p in expired ==> p in entries
    ensures NoDuplicates(live) && forall e :: e in live <==> LiveCandidate(entries, opts, e)
    ensures forall p :: p in expired <==> p in entries && Candidate(opts, entries[p]) && Expired(entries[p], opts.now)
    ensures Total(entries - Elements(expired), Cost()) + freed == Total(entries, Cost())
    ensures |entries - Elements(expired)| + |expired| == |entries|
  {
    hide PhysicalKey, Total, Candidate, Expired;
    SameSize(expired, Elements(expired));
    assert (entries - Elements(expired)).Keys == entries.Keys - Elements(expired);
  }

  lemma CutStart(before: map<Text, Entry>, opts: EvictOptions, queue: seq<Entry>, expired: seq<Text>)
    requires forall p :: p in expired <==> p in before && Candidate(opts, before[p]) && Expired(before[p], opts.now)
    ensures CutAt(before, before - Elements(expired), opts, queue, 0)
  {
  }

  lemma SortedQueue(before: map<Text, Entry>, opts: EvictOptions, live: seq<Entry>)
    requires NoDuplicates(live) && forall e :: e in live <==> LiveCandidate(before, opts, e)
    ensures Queue(before, opts, Sort(live, LruLe)) && SortedBy(Sort(live, LruLe), LruLe)
  {
    hide LruLe, LiveCandidate;
    LruOrder();
    SortIsSorted(live, LruLe);
    var queue := Sort(live, LruLe);
    RearrangedDistinct(live, queue);
    assert forall e :: e in queue <==> e in multiset(queue);
    assert forall e :: e in live <==> e in multiset(live);
  }

  lemma NextQueued(before: map<Text, Entry>, entries: map<Text, Entry>, opts: EvictOptions, queue: seq<Entry>, n: nat)
    requires Filed(before) && Queue(before, opts, queue) && n < |queue| && CutAt(before, entries, opts, queue, n)
    ensures
      var p := PhysicalKey(queue[n].key);
      p in entries && entries[p] == queue[n] && CutAt(before, entries - {p}, opts, queue, n + 1)
  {
    hide PhysicalKey, Candidate, Expired;
    var p := PhysicalKey(queue[n].key);
    assert LiveCandidate(before, opts, queue[n]);
    assert queue[..n + 1] == queue[..n] + [queue[n]];
    assert queue[n] !in queue[..n];
    assert forall q :: q in before && before[q] == queue[n] ==> q == p;
  }

  lemma SameSize<T>(xs: seq<T>, s: set<T>)
    requires NoDuplicates(xs) && forall x :: x in xs <==> x in s
    ensures |xs| == |s|
    decreases |xs|
  {
    if xs == [] {
      assert s == {};
    } else {
      assert xs[0] in s && xs[0] !in xs[1..];
      assert forall x :: x in xs[1..] <==> x in s - {xs[0]};
      SameSize(xs[1..], s - {xs[0]});
    }
  }

  /** Whatever is stored under a key's physical key belongs to that key. */
  lemma SameKey(entries: map<Text, Entry>, physical: Text, key: Key)
    requires Filed(entries) && physical == PhysicalKey(key)
    ensures physical in entries ==> entries[physical].key == key
  {
    if physical in entries { PhysicalKeyInjective(entries[physical].key, key); }
  }
}
