/** The engine over its shards (cache/engine/memory.go, migration.go, snapshot.go). Every
    operation is stated on the flat map of keys to entries, whatever the number of shards. */
module Engines {
  import opened Common
  import opened Entries
  import opened Accounting
  import opened Removal
  import opened Shards
  import opened FlatMap
  import opened SpaceStatistics

  class MemoryEngine {
    const shards: seq<Shard>
    const hash: Text -> nat
    const slot: SlotFunction
    const codec: Codec

    ghost predicate Valid()
      reads this, shards
    {
      && |shards| > 0
      && (forall i, j :: 0 <= i < j < |shards| ==> shards[i] != shards[j])
      && (forall i :: 0 <= i < |shards| ==> shards[i].Valid())
      && Placed(hash, EntryMaps())
    }

    ghost function EntryMaps(): (maps: Maps)
      reads this, shards
      ensures |maps| == |shards| && forall i :: 0 <= i < |shards| ==> maps[i] == shards[i].entries
    {
      seq(|shards|, i requires 0 <= i < |shards| reads this, shards => shards[i].entries)
    }

    /** What the engine stores, as one map. */
    ghost function Stored(): (content: map<Key, Entry>)
      requires Valid()
      reads this, shards
      ensures forall k :: k in content ==> content[k].key == k
    {
      Content(hash, EntryMaps())
    }

    constructor (shardCount: int, hash: Text -> nat, slot: SlotFunction, codec: Codec)
      ensures Valid() && fresh(shards) && Stored() == map[]
      ensures |shards| == if shardCount <= 0 then 16 else shardCount
      ensures this.hash == hash && this.slot == slot && this.codec == codec
    {
      hide Filed, Accounted, Placed, Content;
      var count := if shardCount <= 0 then 16 else shardCount;
      var workers: seq<Shard> := [];
      for i := 0 to count
        invariant |workers| == i && forall j :: 0 <= j < i ==> fresh(workers[j]) && workers[j].Valid() && workers[j].entries == map[]
        invariant forall j, k :: 0 <= j < k < i ==> workers[j] != workers[k]
      {
        var worker := new Shard();
        workers := workers + [worker];
      }
      this.shards, this.hash, this.slot, this.codec := workers, hash, slot, codec;
      new;
      EmptyShards(hash, EntryMaps());
    }

    method ShardFor(physical: Text) returns (index: nat)
      requires |shards| > 0
      ensures index == Home(hash, physical, |shards|) && index < |shards|
    {
      var target := hash(physical) % |shards|;
      index := 0;
      while index != target
        invariant index <= target
        decreases target - index
      {
        index := index + 1;
      }
    }

    /** One command on one key: the flat map changes at that key alone, as the command says. */
    method Execute(key: Key, c: Command, now: int) returns (reply: Reply)
      requires Valid()
      modifies shards
      ensures Valid()
      ensures !ValidKey(key) ==> reply == Failed(InvalidKey) && Stored() == old(Stored())
      ensures ValidKey(key) ==>
                var out := Apply(codec, key, Lookup(old(Stored()), key), c, now);
                Stored() == Put(old(Stored()), key, out.entry) && reply == out.reply
    {
      hide Placed, Home, PhysicalKey, ValidKey, Content, Apply, Filed, Accounted, EntryFor;
      ghost var maps := EntryMaps();
      if !ValidKey(key) {
        return Failed(InvalidKey);
      }
      var physical := PhysicalKey(key);
      var i := ShardFor(physical);
      ContentAt(hash, maps, key);
      reply := shards[i].Execute(codec, physical, key, c, now);
      ghost var out := Apply(codec, key, Lookup(old(Stored()), key), c, now);
      StoredEntryFor(hash, maps, key);
      ApplyKeepsFiling(codec, key, Lookup(old(Stored()), key), c, now);
      ContentPut(hash, maps, key, out.entry);
      assert EntryMaps() == maps[i := Put(maps[i], physical, out.entry)];
    }

    // ---------------------------------------------------------------- removing

    method SweepExpired(now: int) returns (swept: nat)
      requires Valid()
      modifies shards
      ensures Valid() && Stored() == Rejected(old(Stored()), ExpiredAt(now))
      ensures swept == |Selected(old(Stored()), ExpiredAt(now))|
    {
      hide Placed, Content, Total, Filed, Accounted, Rejected, Selected;
      swept := 0;
      ghost var maps := EntryMaps();
      ghost var test := ExpiredAt(now);
      for i := 0 to |shards|
        invariant forall j :: 0 <= j < |shards| ==> shards[j].Valid()
        invariant forall j :: 0 <= j < |shards| ==> shards[j].entries == if j < i then Rejected(maps[j], test) else maps[j]
        invariant swept == ShardSum(maps[..i], Tally(test))
      {
        var n := shards[i].SweepExpired(now);
        SelectedCount(maps[i], test);
        ShardSumSnoc(maps, i, Tally(test));
        swept := swept + n;
      }
      assert maps[..|shards|] == maps;
      ContentRejected(hash, maps, EntryMaps(), test);
      ContentTotal(hash, maps, Tally(test));
      SelectedCount(Content(hash, maps), test);
    }

    method DeleteRange(r: RangeOptions) returns (deleted: nat, ok: bool)
      requires Valid()
      modifies shards
      ensures Valid() && ok == ValidRange(r)
      ensures !ok ==> deleted == 0 && Stored() == old(Stored())
      ensures ok ==> Stored() == Rejected(old(Stored()), InRangeOf(slot, r)) && deleted == |Selected(old(Stored()), InRangeOf(slot, r))|
    {
      hide Placed, Content, Total, Filed, Accounted, Rejected, Selected;
      if !ValidRange(r) {
        return 0, false;
      }
      deleted := 0;
      ghost var maps := EntryMaps();
      ghost var test := InRangeOf(slot, r);
      for i := 0 to |shards|
        invariant forall j :: 0 <= j < |shards| ==> shards[j].Valid()
        invariant forall j :: 0 <= j < |shards| ==> shards[j].entries == if j < i then Rejected(maps[j], test) else maps[j]
        invariant deleted == ShardSum(maps[..i], Tally(test))
      {
        var n := shards[i].DeleteRange(slot, r);
        SelectedCount(maps[i], test);
        ShardSumSnoc(maps, i, Tally(test));
        deleted := deleted + n;
      }
      assert maps[..|shards|] == maps;
      ContentRejected(hash, maps, EntryMaps(), test);
      ContentTotal(hash, maps, Tally(test));
      SelectedCount(Content(hash, maps), test);
      ok := true;
    }

    // ---------------------------------------------------------------- moving ranges

    method Export(r: RangeOptions, now: int) returns (snaps: seq<Snap>, ok: bool)
      requires Valid()
      ensures ok == ValidRange(r) && (!ok ==> snaps == [])
      ensures ok ==> SnappedFlat(Selected(Stored(), ExportedBy(slot, r, now)), snaps) && SortedBy(snaps, SnapLe)
    {
      hide Placed, Content, Snapped, SnappedUpTo, SnappedFlat, SnapLe, Shard.Valid;
      if !ValidRange(r) {
        return [], false;
      }
      ghost var maps := EntryMaps();
      ghost var test := ExportedBy(slot, r, now);
      var all: seq<Snap> := [];
      NothingSnapped(hash, maps, test);
      for i := 0 to |shards|
        invariant SnappedUpTo(hash, maps, test, all, i)
      {
        var more := shards[i].ExportEntries(slot, r, now);
        SnapStep(hash, maps, test, all, i, more);
        all := all + more;
      }
      SnappedAll(hash, maps, test, all);
      snaps := Sort(all, SnapLe);
      SnappedSorted(Selected(Content(hash, maps), test), all);
      ok := true;
    }

    method GroupByShard(snaps: seq<Snap>) returns (groups: seq<seq<Snap>>)
      requires |shards| > 0
      ensures |groups| == |shards| && forall i :: 0 <= i < |groups| ==> groups[i] == Group(hash, snaps, i, |shards|)
    {
      hide PhysicalKey, Home;
      groups := seq(|shards|, i => []);
      for n := 0 to |snaps|
        invariant |groups| == |shards| && forall i :: 0 <= i < |groups| ==> groups[i] == Group(hash, snaps[..n], i, |shards|)
      {
        assert snaps[..n + 1][..n] == snaps[..n];
        var i := ShardFor(PhysicalKey(snaps[n].key));
        groups := groups[i := groups[i] + [snaps[n]]];
      }
      assert snaps[..|snaps|] == snaps;
    }

    /** Importing: when every key is valid, each key ends with the outcome of its own snapshots in
        order; an invalid key stops the import, leaving each key with a prefix of them. */
    method Import(snaps: seq<Snap>) returns (imported: nat, ok: bool)
      requires Valid()
      modifies shards
      ensures Valid() && (ok <==> AllValid(snaps))
      ensures ok ==> forall k :: Lookup(Stored(), k) == ImportedFor(Lookup(old(Stored()), k), snaps, k)
      ensures ok ==> imported == AcceptedFlat(old(Stored()), snaps)
      ensures imported <= AcceptedFlat(old(Stored()), snaps)
      ensures forall k :: PrefixImported(old(Stored()), Stored(), snaps, k)
    {
      hide Placed, Content, Home, PhysicalKey, ImportAll, ImportedFor, AcceptedCount, AllValid, Group, Accounted, Filed, PrefixImported, ValidPrefix;
      hide AcceptedBy, AcceptedFlat, Shard.Valid;
      ghost var maps := EntryMaps();
      var groups := GroupByShard(snaps);
      imported, ok := 0, true;
      var i := 0;
      AcceptedNone(hash, maps, snaps);
      while i < |shards| && ok
        invariant 0 <= i <= |shards|
        invariant forall j :: 0 <= j < |shards| ==> shards[j].Valid()
        invariant forall j :: 0 <= j < |shards| ==> shards[j].entries == if j < i then ImportAll(maps[j], ValidPrefix(groups[j])) else maps[j]
        invariant ok <==> forall j :: 0 <= j < i ==> ValidPrefix(groups[j]) == groups[j]
        invariant imported == AcceptedBy(hash, maps, snaps, if ok then i else i - 1)
      {
        AcceptedMore(hash, maps, snaps, i);
        var n;
        n, ok := shards[i].ImportEntries(groups[i]);
        // what the failing shard took over is not counted
        if ok {
          imported := imported + n;
        }
        i := i + 1;
      }
      AcceptedTotal(hash, maps, snaps);
      AcceptedGrows(hash, maps, snaps, if ok then i else i - 1, |maps|);
      AllFiled();
      ImportedGroups(hash, maps, EntryMaps(), snaps, groups, i);
      GroupsValid(hash, snaps, groups, i);
    }

    lemma AllFiled()
      requires forall j :: 0 <= j < |shards| ==> shards[j].Valid()
      ensures forall j :: 0 <= j < |shards| ==> Filed(EntryMaps()[j])
    {
      hide Filed, Accounted;
    }

    // ---------------------------------------------------------------- snapshots

    method Snapshot() returns (snaps: seq<Snap>)
      requires Valid()
      ensures SnappedFlat(Stored(), snaps) && SortedBy(snaps, SnapLe)
    {
      hide Placed, Content, Snapped, SnappedUpTo, SnappedFlat, SnapLe, Filed, Accounted;
      ghost var maps := EntryMaps();
      var all: seq<Snap> := [];
      NothingSnapped(hash, maps, Everything());
      for i := 0 to |shards|
        invariant SnappedUpTo(hash, maps, Everything(), all, i)
      {
        var more := shards[i].SnapshotEntries();
        SnapStep(hash, maps, Everything(), all, i, more);
        all := all + more;
      }
      SnappedAll(hash, maps, Everything(), all);
      assert Selected(Content(hash, maps), Everything()) == Content(hash, maps);
      snaps := Sort(all, SnapLe);
      SnappedSorted(Content(hash, maps), all);
    }

    /** Restoring replaces the content: every key ends with its last snapshot. The accounting is
        exact when no key repeats, and after a restore that succeeds only then. An invalid key
        stops the restore, leaving each key as it was or with the last of some first part of them. */
    method Restore(snaps: seq<Snap>) returns (ok: bool)
      requires Valid()
      modifies shards
      ensures (ok <==> AllValid(snaps)) && Placed(hash, EntryMaps())
      ensures ok ==> forall k :: Lookup(Content(hash, EntryMaps()), k) == RestoredFor(snaps, k)
      ensures forall k :: PrefixRestored(old(Stored()), Content(hash, EntryMaps()), snaps, k)
      ensures (DistinctKeys(snaps) ==> Valid()) && (ok && Valid() ==> DistinctKeys(snaps))
    {
      hide Placed, Content, Home, PhysicalKey, RestoreAll, RestoredFor, AllValid, Group, Accounted, Filed, ValidPrefix, DistinctKeys, PrefixRestored;
      hide Shard.Valid;
      ghost var maps := EntryMaps();
      PlacedFiled(hash, maps);
      var groups := GroupByShard(snaps);
      ok := true;
      var i := 0;
      while i < |shards| && ok
        invariant 0 <= i <= |shards| && forall j :: 0 <= j < |shards| ==> Filed(shards[j].entries)
        invariant forall j :: 0 <= j < |shards| ==> shards[j].entries == if j < i then RestoreAll(ValidPrefix(groups[j])) else maps[j]
        invariant forall j :: 0 <= j < |shards| ==> (shards[j].Valid() <==> j >= i || DistinctKeys(ValidPrefix(groups[j])))
        invariant ok <==> forall j :: 0 <= j < i ==> ValidPrefix(groups[j]) == groups[j]
      {
        ok := shards[i].RestoreEntries(groups[i]);
        i := i + 1;
      }
      GroupsValid(hash, snaps, groups, i);
      RestoredGroups(hash, maps, EntryMaps(), snaps, groups, i);
      GroupsRepeat(hash, snaps, groups);
    }

    // ---------------------------------------------------------------- evicting

    /** Eviction: shard by shard until the target is met. `shares` records what each visited
        shard gave. */
    method Evict(opts: EvictOptions) returns (freed: nat, count: nat, ok: bool, ghost shares: seq<Share>)
      requires Valid()
      modifies shards
      ensures Valid()
      ensures ok <==> opts.targetBytes == 0 || (opts.namespace != [] && opts.space != [])
      ensures !ok || opts.targetBytes == 0 ==> freed == 0 && count == 0 && Stored() == old(Stored())
      ensures ok ==> EvictedFrom(old(Stored()), Stored(), opts, freed, count)
      ensures EvictedByShard(old(EntryMaps()), EntryMaps(), opts, shares) && freed == FreedBy(shares) && count == CountBy(shares)
    {
      hide Placed, Content, Evicted, Filed, Accounted, Candidate, Shrunk;
      ghost var maps := EntryMaps();
      freed, count, shares := 0, 0, [];
      NothingShrunk(old(Stored()), opts);
      if opts.targetBytes == 0 {
        ok := true;
        return;
      }
      if opts.namespace == [] || opts.space == [] {
        ok := false;
        return;
      }
      var i := 0;
      while i < |shards| && freed < opts.targetBytes
        invariant 0 <= i <= |shards| && |shares| == i && Valid()
        invariant forall j :: i <= j < |shards| ==> shards[j].entries == maps[j]
        invariant freed == FreedBy(shares) && count == CountBy(shares)
        invariant EvictedByShard(maps, EntryMaps(), opts, shares)
        invariant Shrunk(Content(hash, maps), Content(hash, EntryMaps()), opts, freed, count)
      {
        ghost var before := EntryMaps();
        ghost var left := opts.targetBytes - freed;
        var more, also := shards[i].Evict(opts.(targetBytes := opts.targetBytes - freed));
        ShrinkStep(hash, Content(hash, maps), before, i, shards[i].entries, opts, left, freed, count, more, also);
        assert EntryMaps() == before[i := shards[i].entries];
        ShareStep(maps, before, EntryMaps(), opts, shares, i, more, also);
        freed := freed + more;
        count := count + also;
        shares := shares + [Share(more, also)];
        i := i + 1;
      }
      if freed < opts.targetBytes {
        AllCandidatesGone(hash, maps, EntryMaps(), opts, shares);
      }
      ok := true;
    }

    // ---------------------------------------------------------------- statistics

    method Stats() returns (objects: nat, memoryBytes: nat, items: seq<SpaceStats>)
      requires Valid()
      ensures objects == |Stored()| && memoryBytes == Total(Stored(), Cost())
      ensures StatsOf(Stored(), items)
    {
      hide Placed, Content, Total, Filed, SpacesAccounted, UsageAt, PlusUsage;
      objects, memoryBytes := 0, 0;
      var spaces: map<SpaceRef, Usage> := map[];
      ghost var maps := EntryMaps();
      NoUsage(maps);
      for i := 0 to |shards|
        invariant objects == ShardSum(maps[..i], Tally(Everything())) && memoryBytes == ShardSum(maps[..i], Cost())
        invariant SpacesSummed(maps[..i], spaces)
      {
        SizeIsTotal(maps[i]);
        ShardSumSnoc(maps, i, Tally(Everything()));
        ShardSumSnoc(maps, i, Cost());
        objects := objects + shards[i].objects;
        memoryBytes := memoryBytes + shards[i].memoryBytes;
        ghost var before := spaces;
        spaces := AddSpaceStats(spaces, shards[i].spaces);
        MoreUsage(maps, i, before, shards[i].spaces, spaces);
      }
      assert maps[..|shards|] == maps;
      SizeIsTotal(Content(hash, maps));
      ContentTotal(hash, maps, Tally(Everything()));
      ContentTotal(hash, maps, Cost());
      AllUsage(hash, maps, spaces);
      items := BuildSpaceStats(spaces, Content(hash, maps));
    }
  }

  lemma EmptyShards(hash: Text -> nat, maps: Maps)
    requires |maps| > 0 && forall i :: 0 <= i < |maps| ==> maps[i] == map[]
    ensures Placed(hash, maps) && Content(hash, maps) == map[]
  {
  }

  lemma StoredEntryFor(hash: Text -> nat, maps: Maps, key: Key)
    requires Placed(hash, maps)
    ensures
      var e := Lookup(Content(hash, maps), key);
      e.Some? ==> EntryFor(key, e.value)
  {
    if key in Content(hash, maps) { StoredValid(hash, maps, key); }
  }

  lemma NothingSnapped(hash: Text -> nat, maps: Maps, test: Entry -> bool)
    requires |maps| > 0
    ensures SnappedUpTo(hash, maps, test, [], 0)
  {
  }

  // ---------------------------------------------------------------- imports

  /** A key's entry is the outcome of importing some first part of the snapshots. */
  ghost predicate PrefixImported(before: map<Key, Entry>, after: map<Key, Entry>, snaps: seq<Snap>, k: Key) {
    exists n :: 0 <= n <= |snaps| && Lookup(after, k) == ImportedFor(Lookup(before, k), snaps[..n], k)
  }

  lemma ImportedGroups(hash: Text -> nat, maps: Maps, after: Maps, snaps: seq<Snap>, groups: seq<seq<Snap>>, visited: nat)
    requires Placed(hash, maps) && |after| == |maps| == |groups| && visited <= |maps|
    requires forall i :: 0 <= i < |groups| ==> groups[i] == Group(hash, snaps, i, |maps|)
    requires forall i :: 0 <= i < |maps| ==> Filed(after[i])
    requires forall i :: 0 <= i < |maps| ==> after[i] == if i < visited then ImportAll(maps[i], ValidPrefix(groups[i])) else maps[i]
    ensures Placed(hash, after)
    ensures visited == |maps| && (forall i :: 0 <= i < |maps| ==> ValidPrefix(groups[i]) == groups[i]) ==>
              forall k :: Lookup(Content(hash, after), k) == ImportedFor(Lookup(Content(hash, maps), k), snaps, k)
    ensures forall k :: PrefixImported(Content(hash, maps), Content(hash, after), snaps, k)
  {
    ImportPlaced(hash, maps, after, snaps, groups, visited);
    hide Content, ImportAll, ImportedFor, Group, Filed, Placed, PrefixImported;
    forall k
      ensures PrefixImported(Content(hash, maps), Content(hash, after), snaps, k)
      ensures visited == |maps| && (forall i :: 0 <= i < |maps| ==> ValidPrefix(groups[i]) == groups[i]) ==>
                Lookup(Content(hash, after), k) == ImportedFor(Lookup(Content(hash, maps), k), snaps, k)
    {
      ImportedKey(hash, maps, after, snaps, groups, visited, k);
    }
  }

  lemma ImportPlaced(hash: Text -> nat, maps: Maps, after: Maps, snaps: seq<Snap>, groups: seq<seq<Snap>>, visited: nat)
    requires Placed(hash, maps) && |after| == |maps| == |groups| && visited <= |maps|
    requires forall i :: 0 <= i < |groups| ==> groups[i] == Group(hash, snaps, i, |maps|)
    requires forall i :: 0 <= i < |maps| ==> Filed(after[i])
    requires forall i :: 0 <= i < |maps| ==> after[i] == if i < visited then ImportAll(maps[i], ValidPrefix(groups[i])) else maps[i]
    ensures Placed(hash, after)
  {
    hide PhysicalKey, Home, ImportAll, Group, Filed;
    forall i | 0 <= i < |maps| ensures forall p :: p in after[i] ==> Home(hash, p, |maps|) == i {
      if i < visited {
        forall s | s in ValidPrefix(groups[i]) ensures Home(hash, PhysicalKey(s.key), |maps|) == i {
          GroupMembers(hash, snaps, i, |maps|, s);
        }
        ImportedPlaced(hash, maps[i], ValidPrefix(groups[i]), i, |maps|);
      }
    }
  }

  lemma ImportedKey(hash: Text -> nat, maps: Maps, after: Maps, snaps: seq<Snap>, groups: seq<seq<Snap>>, visited: nat, k: Key)
    requires Placed(hash, maps) && Placed(hash, after) && |after| == |maps| == |groups| && visited <= |maps|
    requires forall i :: 0 <= i < |groups| ==> groups[i] == Group(hash, snaps, i, |maps|)
    requires forall i :: 0 <= i < |maps| ==> after[i] == if i < visited then ImportAll(maps[i], ValidPrefix(groups[i])) else maps[i]
    ensures PrefixImported(Content(hash, maps), Content(hash, after), snaps, k)
    ensures visited == |maps| && (forall i :: 0 <= i < |maps| ==> ValidPrefix(groups[i]) == groups[i]) ==>
              Lookup(Content(hash, after), k) == ImportedFor(Lookup(Content(hash, maps), k), snaps, k)
  {
    assert |maps| > 0;
    HomeInRange(hash, PhysicalKey(k), |maps|);
    hide PhysicalKey, Home, Content, ImportAll, Placed, Group;
    ContentAt(hash, maps, k);
    ContentAt(hash, after, k);
    var was := Lookup(Content(hash, maps), k);
    var i := Home(hash, PhysicalKey(k), |maps|);
    if i < visited {
      ImportAllAt(maps[i], ValidPrefix(groups[i]), k);
      var n := GroupPrefix(hash, snaps, i, |maps|, ValidPrefix(groups[i]));
      GroupKeepsKey(hash, snaps[..n], k, |maps|, was);
      GroupKeepsKey(hash, snaps, k, |maps|, was);
      assert Lookup(Content(hash, after), k) == ImportedFor(was, snaps[..n], k);
    } else {
      assert ImportedFor(was, snaps[..0], k) == was;
    }
  }

  /** No group was cut short exactly when every key is valid. */
  lemma GroupsValid(hash: Text -> nat, snaps: seq<Snap>, groups: seq<seq<Snap>>, visited: nat)
    requires 0 < |groups| && visited <= |groups|
    requires forall i :: 0 <= i < |groups| ==> groups[i] == Group(hash, snaps, i, |groups|)
    requires visited == |groups| || !forall j :: 0 <= j < visited ==> ValidPrefix(groups[j]) == groups[j]
    ensures (forall j :: 0 <= j < visited ==> ValidPrefix(groups[j]) == groups[j]) <==> AllValid(snaps)
  {
    hide PhysicalKey, Home, Group, ValidPrefix, ValidKey;
    forall j | 0 <= j < |groups| ensures ValidPrefix(groups[j]) == groups[j] <==> AllValid(groups[j]) {
      AllValidPrefix(groups[j]);
    }
    forall j, s | 0 <= j < |groups| && s in groups[j] ensures s in snaps {
      GroupMembers(hash, snaps, j, |groups|, s);
    }
    forall s | s in snaps ensures exists j :: 0 <= j < |groups| && s in groups[j] {
      var j := Home(hash, PhysicalKey(s.key), |groups|);
      HomeInRange(hash, PhysicalKey(s.key), |groups|);
      GroupMembers(hash, snaps, j, |groups|, s);
    }
  }

  // ---------------------------------------------------------------- restores

  /** A key's entry is as before, or the last of some first part of the snapshots. */
  ghost predicate PrefixRestored(before: map<Key, Entry>, after: map<Key, Entry>, snaps: seq<Snap>, k: Key) {
    || Lookup(after, k) == Lookup(before, k)
    || exists n :: 0 <= n <= |snaps| && Lookup(after, k) == RestoredFor(snaps[..n], k)
  }

  lemma PlacedFiled(hash: Text -> nat, maps: Maps)
    requires Placed(hash, maps)
    ensures forall i :: 0 <= i < |maps| ==> Filed(maps[i])
  {
  }

  lemma RestoredGroups(hash: Text -> nat, maps: Maps, after: Maps, snaps: seq<Snap>, groups: seq<seq<Snap>>, visited: nat)
    requires Placed(hash, maps) && |after| == |maps| == |groups| && visited <= |maps|
    requires forall i :: 0 <= i < |groups| ==> groups[i] == Group(hash, snaps, i, |maps|)
    requires forall i :: 0 <= i < |maps| ==> Filed(after[i])
    requires forall i :: 0 <= i < |maps| ==> after[i] == if i < visited then RestoreAll(ValidPrefix(groups[i])) else maps[i]
    ensures Placed(hash, after)
    ensures visited == |maps| && (forall i :: 0 <= i < |maps| ==> ValidPrefix(groups[i]) == groups[i]) ==>
              forall k :: Lookup(Content(hash, after), k) == RestoredFor(snaps, k)
    ensures forall k :: PrefixRestored(Content(hash, maps), Content(hash, after), snaps, k)
  {
    RestorePlaced(hash, maps, after, snaps, groups, visited);
    hide Content, RestoreAll, RestoredFor, Group, Filed, Placed, PrefixRestored;
    forall k
      ensures PrefixRestored(Content(hash, maps), Content(hash, after), snaps, k)
      ensures visited == |maps| && (forall i :: 0 <= i < |maps| ==> ValidPrefix(groups[i]) == groups[i]) ==>
                Lookup(Content(hash, after), k) == RestoredFor(snaps, k)
    {
      RestoredKey(hash, maps, after, snaps, groups, visited, k);
    }
  }

  lemma RestorePlaced(hash: Text -> nat, maps: Maps, after: Maps, snaps: seq<Snap>, groups: seq<seq<Snap>>, visited: nat)
    requires Placed(hash, maps) && |after| == |maps| == |groups| && visited <= |maps|
    requires forall i :: 0 <= i < |groups| ==> groups[i] == Group(hash, snaps, i, |maps|)
    requires forall i :: 0 <= i < |maps| ==> Filed(after[i])
    requires forall i :: 0 <= i < |maps| ==> after[i] == if i < visited then RestoreAll(ValidPrefix(groups[i])) else maps[i]
    ensures Placed(hash, after)
  {
    hide PhysicalKey, Home, RestoreAll, Group, Filed;
    forall i, p | 0 <= i < |after| && p in after[i] ensures Home(hash, p, |after|) == i {
      if i < visited {
        var g := ValidPrefix(groups[i]);
        RestoreKeys(g, p);
        var j :| 0 <= j < |g| && PhysicalKey(g[j].key) == p;
        assert g[j] == groups[i][j];
        GroupMembers(hash, snaps, i, |after|, groups[i][j]);
      }
    }
  }

  lemma RestoredKey(hash: Text -> nat, maps: Maps, after: Maps, snaps: seq<Snap>, groups: seq<seq<Snap>>, visited: nat, k: Key)
    requires Placed(hash, maps) && Placed(hash, after) && |after| == |maps| == |groups| && visited <= |maps|
    requires forall i :: 0 <= i < |groups| ==> groups[i] == Group(hash, snaps, i, |maps|)
    requires forall i :: 0 <= i < |maps| ==> after[i] == if i < visited then RestoreAll(ValidPrefix(groups[i])) else maps[i]
    ensures PrefixRestored(Content(hash, maps), Content(hash, after), snaps, k)
    ensures visited == |maps| && (forall i :: 0 <= i < |maps| ==> ValidPrefix(groups[i]) == groups[i]) ==>
              Lookup(Content(hash, after), k) == RestoredFor(snaps, k)
  {
    assert |maps| > 0;
    HomeInRange(hash, PhysicalKey(k), |maps|);
    hide PhysicalKey, Home, Content, RestoreAll, Placed, Group, RestoredFor;
    ContentAt(hash, maps, k);
    ContentAt(hash, after, k);
    var i := Home(hash, PhysicalKey(k), |maps|);
    if i < visited {
      RestoreAllAt(ValidPrefix(groups[i]), k);
      var n := GroupPrefix(hash, snaps, i, |maps|, ValidPrefix(groups[i]));
      GroupKeepsRestored(hash, snaps[..n], k, |maps|);
      GroupKeepsRestored(hash, snaps, k, |maps|);
      assert Lookup(Content(hash, after), k) == RestoredFor(snaps[..n], k);
    }
  }

  /** Keys repeat exactly when they repeat in some group; a part of a group repeats none if the whole does not. */
  lemma GroupsRepeat(hash: Text -> nat, snaps: seq<Snap>, groups: seq<seq<Snap>>)
    requires 0 < |groups| && forall i :: 0 <= i < |groups| ==> groups[i] == Group(hash, snaps, i, |groups|)
    ensures DistinctKeys(snaps) ==> forall i :: 0 <= i < |groups| ==> DistinctKeys(ValidPrefix(groups[i]))
    ensures (forall i :: 0 <= i < |groups| ==> DistinctKeys(groups[i])) ==> DistinctKeys(snaps)
  {
    hide Group, ValidKey;
    if DistinctKeys(snaps) {
      forall i | 0 <= i < |groups| ensures DistinctKeys(ValidPrefix(groups[i])) { GroupDistinct(hash, snaps, i, |groups|); }
    }
    if forall i :: 0 <= i < |groups| ==> DistinctKeys(groups[i]) { GroupsDistinct(hash, snaps, |groups|); }
  }

  /** Restoring a snapshot of a map gives the map back. */
  lemma RestoreOfSnapshot(m: map<Key, Entry>, snaps: seq<Snap>, k: Key)
    requires SnappedFlat(m, snaps) && forall key :: key in m ==> EntryFor(key, m[key])
    ensures RestoredFor(snaps, k) == Lookup(m, k)
  {
    if k in m {
      assert SnapOf(m[k]) in snaps;
      var i :| 0 <= i < |snaps| && snaps[i] == SnapOf(m[k]);
      SnapRoundTrip(m[k]);
      forall j | 0 <= j < |snaps| && snaps[j].key == k ensures EntryOf(snaps[j]) == m[k] { assert snaps[j] in snaps; }
      RestoredFrom(snaps, k, m[k], i);
    } else {
      RestoredAbsent(snaps, k);
    }
  }

  lemma {:induction false} RestoredFrom(snaps: seq<Snap>, k: Key, e: Entry, i: nat)
    requires i < |snaps| && snaps[i].key == k && forall j :: 0 <= j < |snaps| && snaps[j].key == k ==> EntryOf(snaps[j]) == e
    ensures RestoredFor(snaps, k) == Some(e)
  {
    if snaps[|snaps| - 1].key != k { RestoredFrom(snaps[..|snaps| - 1], k, e, i); }
  }

  lemma {:induction false} RestoredAbsent(snaps: seq<Snap>, k: Key)
    requires forall s :: s in snaps ==> s.key != k
    ensures RestoredFor(snaps, k) == None
  {
    if snaps != [] {
      var front := snaps[..|snaps| - 1];
      assert snaps[|snaps| - 1] in snaps && forall s :: s in front ==> s in snaps;
      RestoredAbsent(front, k);
    }
  }

  lemma SnappedKeysDistinct(m: map<Key, Entry>, snaps: seq<Snap>)
    requires SnappedFlat(m, snaps)
    ensures DistinctKeys(snaps)
  {
    forall i, j | 0 <= i < j < |snaps| ensures snaps[i].key != snaps[j].key {
      assert snaps[i] in snaps && snaps[j] in snaps;
    }
  }

  /** A snapshot of one engine restored into another, of any shard count, gives the same content. */
  method CopyEngine(source: MemoryEngine, target: MemoryEngine)
    requires source.Valid() && target.Valid()
    requires forall i, j :: 0 <= i < |source.shards| && 0 <= j < |target.shards| ==> source.shards[i] != target.shards[j]
    modifies target.shards
    ensures source.Valid() && target.Valid() && target.Stored() == source.Stored() == old(source.Stored())
  {
    hide Placed, Content, Accounted, Filed, SnappedFlat, AllValid, DistinctKeys, RestoredFor;
    ghost var stored := source.Stored();
    StoredFor(source.hash, source.EntryMaps());
    var snaps := source.Snapshot();
    SnapshotValid(stored, snaps);
    SnappedKeysDistinct(stored, snaps);
    var ok := target.Restore(snaps);
    assert source.EntryMaps() == old(source.EntryMaps());
    forall k ensures Lookup(target.Stored(), k) == Lookup(stored, k) { RestoreOfSnapshot(stored, snaps, k); }
    SameLookups(target.Stored(), stored);
  }

  lemma SnapshotValid(m: map<Key, Entry>, snaps: seq<Snap>)
    requires SnappedFlat(m, snaps) && forall k :: k in m ==> ValidKey(k)
    ensures AllValid(snaps)
  {
  }

  // ---------------------------------------------------------------- eviction

  lemma NothingShrunk(m: map<Key, Entry>, opts: EvictOptions)
    ensures Shrunk(m, m, opts, 0, 0)
  {
  }

  lemma ShareStep(maps: Maps, before: Maps, after: Maps, opts: EvictOptions, shares: seq<Share>, i: nat, more: nat, also: nat)
    requires i == |shares| < |maps| && EvictedByShard(maps, before, opts, shares) && |after| == |maps|
    requires after == before[i := after[i]] && FreedBy(shares) < opts.targetBytes
    requires Evicted(maps[i], after[i], opts.(targetBytes := opts.targetBytes - FreedBy(shares)), more, also)
    ensures EvictedByShard(maps, after, opts, shares + [Share(more, also)])
    ensures FreedBy(shares + [Share(more, also)]) == FreedBy(shares) + more
    ensures CountBy(shares + [Share(more, also)]) == CountBy(shares) + also
  {
    hide Evicted;
    var next := shares + [Share(more, also)];
    assert next[..i] == shares;
    forall j | 0 <= j < |next| ensures ShardShare(maps, after, opts, next, j) {
      if j < i {
        assert ShardShare(maps, before, opts, shares, j);
        assert next[..j] == shares[..j];
      }
    }
  }

  /** When the target was missed after every shard, no candidate is left anywhere. */
  lemma AllCandidatesGone(hash: Text -> nat, maps: Maps, after: Maps, opts: EvictOptions, shares: seq<Share>)
    requires Placed(hash, after) && EvictedByShard(maps, after, opts, shares) && |shares| == |maps|
    requires FreedBy(shares) < opts.targetBytes
    ensures forall k :: k in Content(hash, after) ==> !Candidate(opts, Content(hash, after)[k])
  {
    forall i, p | 0 <= i < |maps| && p in after[i] ensures !Candidate(opts, after[i][p]) {
      assert ShardShare(maps, after, opts, shares, i);
      FreedMonotone(shares, i + 1);
      assert shares[..i + 1][..i] == shares[..i];
    }
    hide EvictedByShard, Candidate, Content, PhysicalKey, Home;
    forall k | k in Content(hash, after) ensures !Candidate(opts, Content(hash, after)[k]) {
      HomeInRange(hash, PhysicalKey(k), |after|);
      ContentAt(hash, after, k);
    }
  }

  lemma {:induction false} FreedMonotone(shares: seq<Share>, n: nat)
    requires n <= |shares|
    ensures FreedBy(shares[..n]) <= FreedBy(shares)
  {
    if n == |shares| {
      assert shares[..n] == shares;
    } else {
      assert shares[..|shares| - 1][..n] == shares[..n];
      FreedMonotone(shares[..|shares| - 1], n);
    }
  }

  // ---------------------------------------------------------------- statistics

  /** The usage of every space over some shards, kept only for spaces that have entries. */
  ghost predicate SpacesSummed(maps: Maps, spaces: map<SpaceRef, Usage>) {
    forall ref :: SpaceSummed(maps, spaces, ref)
  }

  ghost predicate SpaceSummed(maps: Maps, spaces: map<SpaceRef, Usage>, ref: SpaceRef) {
    && UsageAt(spaces, ref) == Usage(ShardSum(maps, CountIn(ref)), ShardSum(maps, CostIn(ref)))
    && (ref in spaces <==> ShardSum(maps, CountIn(ref)) > 0)
  }

  lemma NoUsage(maps: Maps)
    ensures SpacesSummed(maps[..0], map[])
    ensures ShardSum(maps[..0], Tally(Everything())) == 0 && ShardSum(maps[..0], Cost()) == 0
  {
  }

  lemma MoreUsage(maps: Maps, i: nat, spaces: map<SpaceRef, Usage>, shard: map<SpaceRef, Usage>, next: map<SpaceRef, Usage>)
    requires i < |maps| && SpacesSummed(maps[..i], spaces) && SpacesAccounted(maps[i], shard)
    requires next.Keys == spaces.Keys + shard.Keys
    requires forall ref :: UsageAt(next, ref) == PlusUsage(UsageAt(spaces, ref), UsageAt(shard, ref))
    ensures SpacesSummed(maps[..i + 1], next)
  {
    hide SpaceSummed, SpaceAccounted, ShardSum, Total, CountIn, CostIn;
    var more := maps[..i + 1];
    forall ref ensures SpaceSummed(more, next, ref) {
      assert SpaceSummed(maps[..i], spaces, ref);
      assert SpaceAccounted(maps[i], shard, ref);
      ShardSumSnoc(maps, i, CountIn(ref));
      ShardSumSnoc(maps, i, CostIn(ref));
      MoreSpaceUsage(maps[..i], maps[i], more, spaces, shard, next, ref);
    }
  }

  lemma MoreSpaceUsage(less: Maps, m: map<Text, Entry>, more: Maps, spaces: map<SpaceRef, Usage>, shard: map<SpaceRef, Usage>,
                       next: map<SpaceRef, Usage>, ref: SpaceRef)
    requires SpaceSummed(less, spaces, ref) && SpaceAccounted(m, shard, ref)
    requires ShardSum(more, CountIn(ref)) == ShardSum(less, CountIn(ref)) + Total(m, CountIn(ref))
    requires ShardSum(more, CostIn(ref)) == ShardSum(less, CostIn(ref)) + Total(m, CostIn(ref))
    requires ref in next <==> ref in spaces || ref in shard
    requires UsageAt(next, ref) == PlusUsage(UsageAt(spaces, ref), UsageAt(shard, ref))
    ensures SpaceSummed(more, next, ref)
  {
    hide Total, ShardSum, CountIn, CostIn;
  }

  lemma AllUsage(hash: Text -> nat, maps: Maps, spaces: map<SpaceRef, Usage>)
    requires Placed(hash, maps) && SpacesSummed(maps, spaces)
    ensures SpacesAccounted(Content(hash, maps), spaces)
  {
    hide Placed, Content, Total, ShardSum;
    forall ref ensures SpaceAccounted(Content(hash, maps), spaces, ref) {
      assert SpaceSummed(maps, spaces, ref);
      ContentTotal(hash, maps, CountIn(ref));
      ContentTotal(hash, maps, CostIn(ref));
    }
  }

  // ---------------------------------------------------------------- moving a range

  lemma {:induction false} ImportedAbsent(was: Option<Entry>, snaps: seq<Snap>, k: Key)
    requires forall s :: s in snaps ==> s.key != k
    ensures ImportedFor(was, snaps, k) == was
  {
    if snaps != [] {
      var front := snaps[..|snaps| - 1];
      assert snaps[|snaps| - 1] in snaps && forall s :: s in front ==> s in snaps;
      ImportedAbsent(was, front, k);
    }
  }

  lemma {:induction false} ImportedOnce(was: Option<Entry>, snaps: seq<Snap>, k: Key, i: nat)
    requires i < |snaps| && snaps[i].key == k && forall j :: 0 <= j < |snaps| && snaps[j].key == k ==> j == i
    ensures ImportedFor(was, snaps, k) == ImportOver(was, EntryOf(snaps[i]))
  {
    var front := snaps[..|snaps| - 1];
    if i == |snaps| - 1 {
      ImportedAbsent(was, front, k);
    } else {
      ImportedOnce(was, front, k, i);
    }
  }

  /** Importing an export: each exported key gets its entry, by the import rule; no other key changes. */
  lemma ImportOfExport(m: map<Key, Entry>, snaps: seq<Snap>, was: Option<Entry>, k: Key)
    requires SnappedFlat(m, snaps) && forall key :: key in m ==> EntryFor(key, m[key])
    ensures ImportedFor(was, snaps, k) == if k in m then ImportOver(was, m[k]) else was
  {
    if k in m {
      assert SnapOf(m[k]) in snaps;
      var i :| 0 <= i < |snaps| && snaps[i] == SnapOf(m[k]);
      forall j | 0 <= j < |snaps| && snaps[j].key == k ensures j == i {
        assert snaps[j] in snaps;
      }
      ImportedOnce(was, snaps, k, i);
      SnapRoundTrip(m[k]);
    } else {
      ImportedAbsent(was, snaps, k);
    }
  }

  /** What moving a range does: the source loses everything in it, the target gains exactly the
      unexpired entries of it, and neither changes outside it. */
  ghost predicate RangeMoved(slot: SlotFunction, r: RangeOptions, now: int, source: map<Key, Entry>, target: map<Key, Entry>,
                             sourceAfter: map<Key, Entry>, targetAfter: map<Key, Entry>) {
    forall k ::
      if KeyInRange(slot, k, r) then
        k !in sourceAfter && Lookup(targetAfter, k) == if k in source && !Expired(source[k], now) then Some(source[k]) else None
      else Lookup(sourceAfter, k) == Lookup(source, k) && Lookup(targetAfter, k) == Lookup(target, k)
  }

  lemma MoveLaw(slot: SlotFunction, r: RangeOptions, now: int, source: map<Key, Entry>, target: map<Key, Entry>,
                snaps: seq<Snap>, targetAfter: map<Key, Entry>)
    requires forall k :: k in source ==> EntryFor(k, source[k])
    requires forall k :: k in target ==> !KeyInRange(slot, k, r)
    requires SnappedFlat(Selected(source, ExportedBy(slot, r, now)), snaps)
    requires forall k :: Lookup(targetAfter, k) == ImportedFor(Lookup(target, k), snaps, k)
    ensures RangeMoved(slot, r, now, source, target, Rejected(source, InRangeOf(slot, r)), targetAfter)
  {
    hide SnappedFlat, KeyInRange, Expired;
    var sourceAfter := Rejected(source, InRangeOf(slot, r));
    forall k ensures
        if KeyInRange(slot, k, r) then
          k !in sourceAfter && Lookup(targetAfter, k) == if k in source && !Expired(source[k], now) then Some(source[k]) else None
        else Lookup(sourceAfter, k) == Lookup(source, k) && Lookup(targetAfter, k) == Lookup(target, k)
    {
      ImportOfExport(Selected(source, ExportedBy(slot, r, now)), snaps, Lookup(target, k), k);
    }
  }

  /** Export from one engine, import into another of any shard count that holds nothing in the
      range, then delete the range from the first. */
  method MoveRange(source: MemoryEngine, target: MemoryEngine, r: RangeOptions, now: int)
    requires source.Valid() && target.Valid() && source.slot == target.slot && ValidRange(r)
    requires forall i, j :: 0 <= i < |source.shards| && 0 <= j < |target.shards| ==> source.shards[i] != target.shards[j]
    requires forall k :: k in target.Stored() ==> !KeyInRange(target.slot, k, r)
    modifies source.shards, target.shards
    ensures source.Valid() && target.Valid()
    ensures RangeMoved(source.slot, r, now, old(source.Stored()), old(target.Stored()), source.Stored(), target.Stored())
  {
    hide Placed, Content, Accounted, Filed, SnappedFlat, RangeMoved, KeyInRange, AllValid, ImportedFor, PrefixImported, Rejected, Selected;
    ghost var stored := source.Stored();
    StoredFor(source.hash, source.EntryMaps());
    var snaps, exported := source.Export(r, now);
    ExportedValid(source.hash, source.EntryMaps(), ExportedBy(source.slot, r, now), snaps);
    var imported, ok := target.Import(snaps);
    assert source.EntryMaps() == old(source.EntryMaps());
    var deleted, gone := source.DeleteRange(r);
    assert target.Valid();
    MoveLaw(source.slot, r, now, stored, old(target.Stored()), snaps, target.Stored());
  }

  lemma StoredFor(hash: Text -> nat, maps: Maps)
    requires Placed(hash, maps)
    ensures forall k :: k in Content(hash, maps) ==> EntryFor(k, Content(hash, maps)[k]) && ValidKey(k)
  {
    hide Placed, EntryFor, Content;
    forall k | k in Content(hash, maps) ensures EntryFor(k, Content(hash, maps)[k]) && ValidKey(k) { StoredValid(hash, maps, k); }
  }

  lemma ExportedValid(hash: Text -> nat, maps: Maps, test: Entry -> bool, snaps: seq<Snap>)
    requires Placed(hash, maps) && SnappedFlat(Selected(Content(hash, maps), test), snaps)
    ensures AllValid(snaps)
  {
    StoredFor(hash, maps);
  }
}
