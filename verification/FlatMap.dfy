/** A sharded engine seen as one flat map from keys to entries. */
module FlatMap {
  import opened Common
  import opened Entries
  import opened Accounting
  import opened Removal
  import opened Shards

  type Maps = seq<map<Text, Entry>>

  /** The shard a physical key lives in; the FNV hash is left open. */
  function Home(hash: Text -> nat, physical: Text, count: nat): nat
    requires count > 0
  {
    hash(physical) % count
  }

  ghost predicate Placed(hash: Text -> nat, maps: Maps) {
    && |maps| > 0
    && (forall i :: 0 <= i < |maps| ==> Filed(maps[i]))
    && (forall i, p :: 0 <= i < |maps| && p in maps[i] ==> Home(hash, p, |maps|) == i)
  }

  ghost function StoredKeys(maps: Maps): set<Key> {
    set i, p | 0 <= i < |maps| && p in maps[i] :: maps[i][p].key
  }

  ghost function At(hash: Text -> nat, maps: Maps, key: Key): Option<Entry>
    requires |maps| > 0
  {
    Lookup(maps[Home(hash, PhysicalKey(key), |maps|)], PhysicalKey(key))
  }

  lemma StoredAt(hash: Text -> nat, maps: Maps, key: Key)
    requires Placed(hash, maps)
    ensures key in StoredKeys(maps) <==> At(hash, maps, key).Some?
    ensures At(hash, maps, key).Some? ==> At(hash, maps, key).value.key == key
  {
    hide PhysicalKey, Home;
    var p := PhysicalKey(key);
    HomeInRange(hash, p, |maps|);
    var i := Home(hash, p, |maps|);
    if p in maps[i] {
      PhysicalKeyInjective(maps[i][p].key, key);
    }
    if key in StoredKeys(maps) {
      var j, q :| 0 <= j < |maps| && q in maps[j] && maps[j][q].key == key;
      assert q == PhysicalKey(maps[j][q].key);
    }
  }

  /** The flat map: what is stored under every key, wherever its shard is. */
  ghost function Content(hash: Text -> nat, maps: Maps): (m: map<Key, Entry>)
    requires Placed(hash, maps)
    ensures forall k :: k in m ==> m[k].key == k
  {
    assert forall k :: k in StoredKeys(maps) ==> At(hash, maps, k).Some? && At(hash, maps, k).value.key == k by {
      forall k ensures k in StoredKeys(maps) ==> At(hash, maps, k).Some? && At(hash, maps, k).value.key == k {
        StoredAt(hash, maps, k);
      }
    }
    map k | k in StoredKeys(maps) :: At(hash, maps, k).value
  }

  lemma ContentAt(hash: Text -> nat, maps: Maps, key: Key)
    requires Placed(hash, maps)
    ensures Lookup(Content(hash, maps), key) == At(hash, maps, key)
  {
    StoredAt(hash, maps, key);
  }

  lemma SameLookups<K, V>(a: map<K, V>, b: map<K, V>)
    requires forall k :: Lookup(a, k) == Lookup(b, k)
    ensures a == b
  {
    assert forall k :: k in a <==> Lookup(a, k).Some?;
    assert forall k :: k in b <==> Lookup(b, k).Some?;
    forall k | k in a ensures k in b && a[k] == b[k] {
      assert Lookup(a, k) == Lookup(b, k);
    }
    forall k | k in b ensures k in a {
      assert Lookup(a, k) == Lookup(b, k);
    }
  }

  /** Storing under one physical key in its home shard is storing under its key in the flat map. */
  lemma ContentPut(hash: Text -> nat, maps: Maps, key: Key, entry: Option<Entry>)
    requires Placed(hash, maps) && ValidKey(key)
    requires entry.Some? ==> EntryFor(key, entry.value)
    ensures
      var i := Home(hash, PhysicalKey(key), |maps|);
      var next := maps[i := Put(maps[i], PhysicalKey(key), entry)];
      Placed(hash, next) && Content(hash, next) == Put(Content(hash, maps), key, entry)
  {
    assert |maps| > 0;
    hide PhysicalKey, Home, Content, Placed, EntryFor, ValidKey, At;
    var i := Home(hash, PhysicalKey(key), |maps|);
    HomeInRange(hash, PhysicalKey(key), |maps|);
    var next := maps[i := Put(maps[i], PhysicalKey(key), entry)];
    PutPlaced(hash, maps, key, entry);
    forall k ensures Lookup(Put(Content(hash, maps), key, entry), k) == At(hash, next, k) {
      ContentAt(hash, maps, k);
      PutAt(hash, maps, key, entry, k);
    }
    ContentIs(hash, next, Put(Content(hash, maps), key, entry));
  }

  lemma PutAt(hash: Text -> nat, maps: Maps, key: Key, entry: Option<Entry>, k: Key)
    requires |maps| > 0
    ensures
      var i := Home(hash, PhysicalKey(key), |maps|);
      At(hash, maps[i := Put(maps[i], PhysicalKey(key), entry)], k) == if k == key then entry else At(hash, maps, k)
  {
    HomeInRange(hash, PhysicalKey(key), |maps|);
    hide PhysicalKey, Home;
    if PhysicalKey(k) == PhysicalKey(key) { PhysicalKeyInjective(k, key); }
  }

  lemma PutPlaced(hash: Text -> nat, maps: Maps, key: Key, entry: Option<Entry>)
    requires Placed(hash, maps) && ValidKey(key)
    requires entry.Some? ==> EntryFor(key, entry.value)
    ensures
      var i := Home(hash, PhysicalKey(key), |maps|);
      Placed(hash, maps[i := Put(maps[i], PhysicalKey(key), entry)])
  {
    hide PhysicalKey, CostOf, ValidKey;
    var p := PhysicalKey(key);
    var i := Home(hash, p, |maps|);
    assert Filed(Put(maps[i], p, entry));
  }

  /** The flat map is decided shard by shard. */
  lemma ContentIs(hash: Text -> nat, maps: Maps, m: map<Key, Entry>)
    requires Placed(hash, maps)
    requires forall k :: Lookup(m, k) == At(hash, maps, k)
    ensures Content(hash, maps) == m
  {
    hide Placed, At, Content;
    forall k ensures Lookup(Content(hash, maps), k) == Lookup(m, k) { ContentAt(hash, maps, k); }
    SameLookups(Content(hash, maps), m);
  }

  lemma RejectedAt<K>(m: map<K, Entry>, test: Entry -> bool, k: K)
    ensures Lookup(Rejected(m, test), k) == if k in m && !test(m[k]) then Some(m[k]) else None
    ensures Lookup(Selected(m, test), k) == if k in m && test(m[k]) then Some(m[k]) else None
  {
  }

  /** Removing from every shard what a test selects removes it from the flat map. */
  lemma ContentRejected(hash: Text -> nat, maps: Maps, next: Maps, test: Entry -> bool)
    requires Placed(hash, maps) && |next| == |maps|
    requires forall i :: 0 <= i < |maps| ==> next[i] == Rejected(maps[i], test)
    ensures Placed(hash, next) && Content(hash, next) == Rejected(Content(hash, maps), test)
  {
    assert Placed(hash, next) by { hide PhysicalKey, EntryFor, ValidKey; }
    hide PhysicalKey, Home, Content, Placed;
    var m := Rejected(Content(hash, maps), test);
    forall k ensures Lookup(m, k) == At(hash, next, k) {
      var p := PhysicalKey(k);
      var i := Home(hash, p, |maps|);
      HomeInRange(hash, p, |maps|);
      ContentAt(hash, maps, k);
      RejectedAt(Content(hash, maps), test, k);
      RejectedAt(maps[i], test, p);
    }
    ContentIs(hash, next, m);
  }

  lemma HomeInRange(hash: Text -> nat, p: Text, count: nat)
    requires count > 0
    ensures Home(hash, p, count) < count
  {
  }

  // ---------------------------------------------------------------- totals over shards

  ghost function ShardSum(maps: Maps, w: Entry -> nat): nat {
    if maps == [] then 0 else Total(maps[0], w) + ShardSum(maps[1..], w)
  }

  lemma {:induction false} ShardSumUpdate(maps: Maps, i: nat, m: map<Text, Entry>, w: Entry -> nat)
    requires i < |maps|
    ensures ShardSum(maps[i := m], w) + Total(maps[i], w) == ShardSum(maps, w) + Total(m, w)
  {
    if i > 0 {
      assert maps[i := m][1..] == maps[1..][i - 1 := m];
      ShardSumUpdate(maps[1..], i - 1, m, w);
    }
  }

  lemma {:induction false} ShardSumEmpty(maps: Maps, w: Entry -> nat)
    requires forall i :: 0 <= i < |maps| ==> maps[i] == map[]
    ensures ShardSum(maps, w) == 0
  {
    if maps != [] {
      TotalEmpty(maps[0], w);
      ShardSumEmpty(maps[1..], w);
    }
  }

  lemma AllStored(hash: Text -> nat, maps: Maps)
    requires Placed(hash, maps)
    ensures forall i, p :: 0 <= i < |maps| && p in maps[i] ==> maps[i][p].key in Content(hash, maps)
  {
  }

  /** Totals over the shards are totals over the flat map. */
  lemma {:induction false} ContentTotal(hash: Text -> nat, maps: Maps, w: Entry -> nat)
    requires Placed(hash, maps)
    ensures Total(Content(hash, maps), w) == ShardSum(maps, w)
    decreases |Content(hash, maps)|
  {
    hide PhysicalKey, Total;
    if k :| k in Content(hash, maps) {
      var p := PhysicalKey(k);
      var i := Home(hash, p, |maps|);
      ContentAt(hash, maps, k);
      assert p in maps[i] && maps[i][p] == Content(hash, maps)[k];
      StoredValid(hash, maps, k);
      ContentPut(hash, maps, k, None);
      var next := maps[i := maps[i] - {p}];
      assert |(Content(hash, maps) - {k}).Keys| == |Content(hash, maps).Keys - {k}|;
      ContentTotal(hash, next, w);
      TotalRemove(Content(hash, maps), k, w);
      TotalRemove(maps[i], p, w);
      ShardSumUpdate(maps, i, maps[i] - {p}, w);
    } else {
      TotalEmpty(Content(hash, maps), w);
      AllStored(hash, maps);
      ShardSumEmpty(maps, w);
    }
  }

  lemma StoredValid(hash: Text -> nat, maps: Maps, k: Key)
    requires Placed(hash, maps) && k in Content(hash, maps)
    ensures ValidKey(k) && EntryFor(k, Content(hash, maps)[k])
  {
    hide PhysicalKey, EntryFor, ValidKey;
    ContentAt(hash, maps, k);
    StoredAt(hash, maps, k);
  }

  lemma {:induction false} ShardSumSnoc(maps: Maps, i: nat, w: Entry -> nat)
    requires i < |maps|
    ensures ShardSum(maps[..i + 1], w) == ShardSum(maps[..i], w) + Total(maps[i], w)
  {
    if i > 0 {
      assert maps[..i + 1][1..] == maps[1..][..i] && maps[..i][1..] == maps[1..][..i - 1];
      ShardSumSnoc(maps[1..], i - 1, w);
    }
  }

  /** Counts the entries a test selects. */
  function Tally(test: Entry -> bool): Entry -> nat { (e: Entry) => if test(e) then 1 else 0 }

  lemma {:induction false} SelectedCount<K(!new)>(m: map<K, Entry>, test: Entry -> bool)
    ensures |Selected(m, test)| == Total(m, Tally(test))
    decreases |m|
  {
    hide Total;
    if k :| k in m {
      var rest := m - {k};
      assert |rest.Keys| == |m.Keys - {k}| && rest.Keys == m.Keys - {k};
      SelectedCount(rest, test);
      TotalRemove(m, k, Tally(test));
      SelectedOneMore(m, k, test);
    } else {
      TotalEmpty(m, Tally(test));
      assert Selected(m, test).Keys == {};
    }
  }

  lemma SelectedOneMore<K(!new)>(m: map<K, Entry>, k: K, test: Entry -> bool)
    requires k in m
    ensures |Selected(m, test)| == |Selected(m - {k}, test)| + Tally(test)(m[k])
  {
    var all, rest := Selected(m, test).Keys, Selected(m - {k}, test).Keys;
    SelectedKeys(m, test);
    SelectedKeys(m - {k}, test);
    hide Selected;
    assert |Selected(m, test)| == |all| && |Selected(m - {k}, test)| == |rest|;
    if test(m[k]) {
      assert all == rest + {k};
    } else {
      assert all == rest;
    }
  }

  lemma SelectedKeys<K(!new)>(m: map<K, Entry>, test: Entry -> bool)
    ensures forall k :: k in Selected(m, test).Keys <==> k in m && test(m[k])
  {
  }

  lemma SizeIsTotal<K(!new)>(m: map<K, Entry>)
    ensures |m| == Total(m, Tally(Everything()))
  {
    SelectedCount(m, Everything());
    assert Selected(m, Everything()) == m;
  }

  // ---------------------------------------------------------------- exporting

  /** The snapshots are exactly those of the flat map's entries, each once. */
  ghost predicate SnappedFlat(m: map<Key, Entry>, snaps: seq<Snap>) {
    NoDuplicates(snaps) && forall s :: s in snaps <==> s.key in m && SnapOf(m[s.key]) == s
  }

  /** The snapshots of what a test selects from the first `n` shards. */
  ghost predicate SnappedUpTo(hash: Text -> nat, maps: Maps, test: Entry -> bool, snaps: seq<Snap>, n: nat)
    requires |maps| > 0
  {
    NoDuplicates(snaps) && forall s :: s in snaps <==> Home(hash, PhysicalKey(s.key), |maps|) < n && SnapAt(hash, maps, test, s)
  }

  ghost predicate SnapAt(hash: Text -> nat, maps: Maps, test: Entry -> bool, s: Snap)
    requires |maps| > 0
  {
    var e := At(hash, maps, s.key);
    e.Some? && test(e.value) && SnapOf(e.value) == s
  }

  lemma SnapStep(hash: Text -> nat, maps: Maps, test: Entry -> bool, snaps: seq<Snap>, n: nat, more: seq<Snap>)
    requires Placed(hash, maps) && n < |maps| && SnappedUpTo(hash, maps, test, snaps, n)
    requires Snapped(Selected(maps[n], test), more)
    ensures SnappedUpTo(hash, maps, test, snaps + more, n + 1)
  {
    forall s ensures s in more <==> Home(hash, PhysicalKey(s.key), |maps|) == n && SnapAt(hash, maps, test, s) {
      hide PhysicalKey, Home;
      assert s in more <==> SnapIn(Selected(maps[n], test), s);
    }
    hide PhysicalKey, Home, SnapAt, Snapped, Placed;
    var both := snaps + more;
    forall s ensures s in both <==> Home(hash, PhysicalKey(s.key), |maps|) < n + 1 && SnapAt(hash, maps, test, s) {
      assert s in both <==> s in snaps || s in more;
    }
    assert NoDuplicates(more) by { assert Snapped(Selected(maps[n], test), more); SnappedDistinct(Selected(maps[n], test), more); }
    forall i, j | 0 <= i < j < |both| ensures both[i] != both[j] {
      if i < |snaps| <= j {
        assert both[i] in snaps && both[j] in more;
      }
    }
  }

  lemma SnappedDistinct(m: map<Text, Entry>, snaps: seq<Snap>)
    requires Snapped(m, snaps)
    ensures NoDuplicates(snaps)
  {
  }

  lemma SnappedAll(hash: Text -> nat, maps: Maps, test: Entry -> bool, snaps: seq<Snap>)
    requires Placed(hash, maps) && SnappedUpTo(hash, maps, test, snaps, |maps|)
    ensures SnappedFlat(Selected(Content(hash, maps), test), snaps)
  {
    assert |maps| > 0;
    hide PhysicalKey, Home, Placed, Content;
    var m := Selected(Content(hash, maps), test);
    forall s ensures s in snaps <==> s.key in m && SnapOf(m[s.key]) == s {
      HomeInRange(hash, PhysicalKey(s.key), |maps|);
      ContentAt(hash, maps, s.key);
      RejectedAt(Content(hash, maps), test, s.key);
    }
  }

  predicate SnapLe(a: Snap, b: Snap) { TextLe(PhysicalKey(a.key), PhysicalKey(b.key)) }

  lemma SnapOrder()
    ensures Preorder(SnapLe)
  {
    hide TextLe, PhysicalKey;
    TextOrder();
  }

  lemma SnappedSorted(m: map<Key, Entry>, snaps: seq<Snap>)
    requires SnappedFlat(m, snaps)
    ensures SnappedFlat(m, Sort(snaps, SnapLe)) && SortedBy(Sort(snaps, SnapLe), SnapLe)
  {
    hide SnapLe;
    SnapOrder();
    SortIsSorted(snaps, SnapLe);
    var sorted := Sort(snaps, SnapLe);
    RearrangedDistinct(snaps, sorted);
    assert forall s :: s in sorted <==> s in multiset(sorted);
    assert forall s :: s in snaps <==> s in multiset(snaps);
  }

  // ---------------------------------------------------------------- importing

  /** The snapshots that go to one shard, in order. */
  function Group(hash: Text -> nat, snaps: seq<Snap>, shard: nat, count: nat): seq<Snap>
    requires count > 0
  {
    if snaps == [] then []
    else
      var last := snaps[|snaps| - 1];
      Group(hash, snaps[..|snaps| - 1], shard, count)
      + if Home(hash, PhysicalKey(last.key), count) == shard then [last] else []
  }

  /** Grouping by shard keeps, for every key, its snapshots in order. */
  lemma {:induction false} GroupKeepsKey(hash: Text -> nat, snaps: seq<Snap>, key: Key, count: nat, was: Option<Entry>)
    requires count > 0
    ensures ImportedFor(was, Group(hash, snaps, Home(hash, PhysicalKey(key), count), count), key) == ImportedFor(was, snaps, key)
  {
    hide PhysicalKey, Home;
    if snaps != [] {
      var front, last := snaps[..|snaps| - 1], snaps[|snaps| - 1];
      var shard := Home(hash, PhysicalKey(key), count);
      GroupKeepsKey(hash, front, key, count, was);
      var g := Group(hash, front, shard, count);
      if Home(hash, PhysicalKey(last.key), count) == shard {
        assert (g + [last])[..|g|] == g;
      } else {
        assert Group(hash, snaps, shard, count) == g;
      }
    }
  }

  lemma {:induction false} GroupKeepsRestored(hash: Text -> nat, snaps: seq<Snap>, key: Key, count: nat)
    requires count > 0
    ensures RestoredFor(Group(hash, snaps, Home(hash, PhysicalKey(key), count), count), key) == RestoredFor(snaps, key)
  {
    hide PhysicalKey, Home;
    if snaps != [] {
      var front, last := snaps[..|snaps| - 1], snaps[|snaps| - 1];
      var shard := Home(hash, PhysicalKey(key), count);
      GroupKeepsRestored(hash, front, key, count);
      var g := Group(hash, front, shard, count);
      if Home(hash, PhysicalKey(last.key), count) == shard {
        assert (g + [last])[..|g|] == g;
      } else {
        assert Group(hash, snaps, shard, count) == g;
      }
    }
  }

  lemma {:induction false} GroupDistinct(hash: Text -> nat, snaps: seq<Snap>, shard: nat, count: nat)
    requires count > 0 && DistinctKeys(snaps)
    ensures DistinctKeys(Group(hash, snaps, shard, count))
  {
    hide PhysicalKey, Home;
    if snaps != [] {
      var n := |snaps| - 1;
      var front, last := snaps[..n], snaps[n];
      assert DistinctKeys(front);
      GroupDistinct(hash, front, shard, count);
      var g := Group(hash, front, shard, count);
      forall i | 0 <= i < |g| ensures g[i].key != last.key {
        GroupMembers(hash, front, shard, count, g[i]);
        assert g[i] in g;
        var j :| 0 <= j < n && front[j] == g[i];
        assert snaps[j].key != snaps[n].key;
      }
    }
  }

  /** The snapshots the first `n` shards take over. */
  ghost function AcceptedBy(hash: Text -> nat, maps: Maps, snaps: seq<Snap>, n: nat): nat
    requires n <= |maps|
  {
    if n == 0 then 0 else AcceptedBy(hash, maps, snaps, n - 1) + AcceptedCount(maps[n - 1], Group(hash, snaps, n - 1, |maps|))
  }

  lemma AcceptedNone(hash: Text -> nat, maps: Maps, snaps: seq<Snap>)
    ensures AcceptedBy(hash, maps, snaps, 0) == 0
  {
  }

  lemma AcceptedMore(hash: Text -> nat, maps: Maps, snaps: seq<Snap>, n: nat)
    requires n < |maps|
    ensures AcceptedBy(hash, maps, snaps, n + 1) == AcceptedBy(hash, maps, snaps, n) + AcceptedCount(maps[n], Group(hash, snaps, n, |maps|))
  {
    hide AcceptedCount, Group;
  }

  /** One more snapshot counts in its own shard, if that takes it over. */
  lemma {:induction false} AcceptedByStep(hash: Text -> nat, maps: Maps, snaps: seq<Snap>, n: nat)
    requires Placed(hash, maps) && n <= |maps| && snaps != []
    ensures
      var front, last := snaps[..|snaps| - 1], EntryOf(snaps[|snaps| - 1]);
      var home := Home(hash, PhysicalKey(last.key), |maps|);
      var taken := TakenOver(ImportedFor(Lookup(Content(hash, maps), last.key), front, last.key), last);
      AcceptedBy(hash, maps, snaps, n) == AcceptedBy(hash, maps, front, n) + if home < n && taken then 1 else 0
  {
    hide Placed, Content, PhysicalKey, Home, AcceptedCount, ImportedFor, TakenOver, Group, EntryOf, Lookup;
    if n > 0 {
      AcceptedByStep(hash, maps, snaps, n - 1);
      AcceptedOne(hash, maps, snaps, n - 1);
    }
  }

  lemma AcceptedOne(hash: Text -> nat, maps: Maps, snaps: seq<Snap>, i: nat)
    requires Placed(hash, maps) && i < |maps| && snaps != []
    ensures
      var front, last := snaps[..|snaps| - 1], EntryOf(snaps[|snaps| - 1]);
      var taken := TakenOver(ImportedFor(Lookup(Content(hash, maps), last.key), front, last.key), last);
      AcceptedCount(maps[i], Group(hash, snaps, i, |maps|))
        == AcceptedCount(maps[i], Group(hash, front, i, |maps|)) + if Home(hash, PhysicalKey(last.key), |maps|) == i && taken then 1 else 0
  {
    var front, last := snaps[..|snaps| - 1], snaps[|snaps| - 1];
    ContentAt(hash, maps, last.key);
    hide Placed, Content, PhysicalKey, Home, ImportedFor, ImportAll, ShouldImport;
    var g := Group(hash, front, i, |maps|);
    if Home(hash, PhysicalKey(last.key), |maps|) == i {
      assert (g + [last])[..|g|] == g;
      ImportAllAt(maps[i], g, last.key);
      GroupKeepsKey(hash, front, last.key, |maps|, Lookup(maps[i], PhysicalKey(last.key)));
    } else {
      assert Group(hash, snaps, i, |maps|) == g;
    }
  }

  /** The shards together take over what the flat map does. */
  lemma {:induction false} AcceptedTotal(hash: Text -> nat, maps: Maps, snaps: seq<Snap>)
    requires Placed(hash, maps)
    ensures AcceptedBy(hash, maps, snaps, |maps|) == AcceptedFlat(Content(hash, maps), snaps)
  {
    assert |maps| > 0;
    hide Placed, Content, PhysicalKey, ImportedFor, TakenOver;
    if snaps == [] {
      NothingAccepted(hash, maps, |maps|);
    } else {
      HomeInRange(hash, PhysicalKey(snaps[|snaps| - 1].key), |maps|);
      hide Home, AcceptedBy;
      AcceptedTotal(hash, maps, snaps[..|snaps| - 1]);
      AcceptedByStep(hash, maps, snaps, |maps|);
    }
  }

  lemma {:induction false} NothingAccepted(hash: Text -> nat, maps: Maps, n: nat)
    requires n <= |maps|
    ensures AcceptedBy(hash, maps, [], n) == 0
  {
    if n > 0 { NothingAccepted(hash, maps, n - 1); }
  }

  lemma {:induction false} AcceptedGrows(hash: Text -> nat, maps: Maps, snaps: seq<Snap>, m: nat, n: nat)
    requires m <= n <= |maps|
    ensures AcceptedBy(hash, maps, snaps, m) <= AcceptedBy(hash, maps, snaps, n)
  {
    if m < n { AcceptedGrows(hash, maps, snaps, m, n - 1); }
  }

  /** A key that repeats repeats within the group of its shard. */
  lemma {:induction false} GroupsDistinct(hash: Text -> nat, snaps: seq<Snap>, count: nat)
    requires count > 0 && forall shard :: 0 <= shard < count ==> DistinctKeys(Group(hash, snaps, shard, count))
    ensures DistinctKeys(snaps)
  {
    hide PhysicalKey, Home;
    if snaps != [] {
      var n := |snaps| - 1;
      var front, last := snaps[..n], snaps[n];
      forall shard | 0 <= shard < count ensures DistinctKeys(Group(hash, front, shard, count)) {
        GroupFront(hash, snaps, shard, count);
      }
      GroupsDistinct(hash, front, count);
      forall i | 0 <= i < n ensures snaps[i].key != last.key {
        assert front[i] == snaps[i];
        NoLaterTwin(hash, snaps, i, count);
      }
    }
  }

  lemma GroupFront(hash: Text -> nat, snaps: seq<Snap>, shard: nat, count: nat)
    requires count > 0 && snaps != [] && DistinctKeys(Group(hash, snaps, shard, count))
    ensures DistinctKeys(Group(hash, snaps[..|snaps| - 1], shard, count))
  {
    hide PhysicalKey, Home;
    var g, front := Group(hash, snaps, shard, count), Group(hash, snaps[..|snaps| - 1], shard, count);
    assert front <= g;
  }

  lemma NoLaterTwin(hash: Text -> nat, snaps: seq<Snap>, i: nat, count: nat)
    requires count > 0 && i < |snaps| - 1 && forall shard :: 0 <= shard < count ==> DistinctKeys(Group(hash, snaps, shard, count))
    ensures snaps[i].key != snaps[|snaps| - 1].key
  {
    var front, last := snaps[..|snaps| - 1], snaps[|snaps| - 1];
    var shard := Home(hash, PhysicalKey(last.key), count);
    HomeInRange(hash, PhysicalKey(last.key), count);
    hide PhysicalKey, Home;
    var g := Group(hash, front, shard, count);
    assert Group(hash, snaps, shard, count) == g + [last];
    forall s | s in g ensures s.key != last.key {
      var j :| 0 <= j < |g| && g[j] == s;
      assert (g + [last])[j].key != (g + [last])[|g|].key;
    }
    assert front[i] in front;
    GroupMembers(hash, front, shard, count, front[i]);
  }

  /** What precedes a point of a group is the group of what precedes a point of the whole. */
  lemma {:induction false} GroupPrefix(hash: Text -> nat, snaps: seq<Snap>, shard: nat, count: nat, g: seq<Snap>) returns (n: nat)
    requires count > 0 && g <= Group(hash, snaps, shard, count)
    ensures n <= |snaps| && g == Group(hash, snaps[..n], shard, count)
  {
    hide PhysicalKey, Home;
    if g == Group(hash, snaps, shard, count) {
      n := |snaps|;
      assert snaps[..n] == snaps;
    } else {
      var front := snaps[..|snaps| - 1];
      assert g <= Group(hash, front, shard, count);
      n := GroupPrefix(hash, front, shard, count, g);
      assert front[..n] == snaps[..n];
    }
  }

  lemma {:induction false} GroupMembers(hash: Text -> nat, snaps: seq<Snap>, shard: nat, count: nat, s: Snap)
    requires count > 0
    ensures s in Group(hash, snaps, shard, count) <==> s in snaps && Home(hash, PhysicalKey(s.key), count) == shard
  {
    hide PhysicalKey, Home;
    if snaps != [] {
      var front, last := snaps[..|snaps| - 1], snaps[|snaps| - 1];
      GroupMembers(hash, front, shard, count, s);
      assert snaps == front + [last];
    }
  }

  ghost predicate AllValid(snaps: seq<Snap>) { forall s :: s in snaps ==> ValidKey(s.key) }

  lemma AllValidPrefix(snaps: seq<Snap>)
    ensures AllValid(snaps) <==> ValidPrefix(snaps) == snaps
  {
    var r := ValidPrefix(snaps);
    if r != snaps {
      assert |r| < |snaps| && snaps[|r|] in snaps;
    } else {
      forall s | s in snaps ensures ValidKey(s.key) {
        var i :| 0 <= i < |r| && r[i] == s;
      }
    }
  }

  lemma ImportedPlaced(hash: Text -> nat, m: map<Text, Entry>, snaps: seq<Snap>, shard: nat, count: nat)
    requires count > 0 && (forall p :: p in m ==> Home(hash, p, count) == shard)
    requires forall s :: s in snaps ==> Home(hash, PhysicalKey(s.key), count) == shard
    ensures forall p :: p in ImportAll(m, snaps) ==> Home(hash, p, count) == shard
  {
    hide PhysicalKey, Home, ShouldImport;
    if snaps != [] {
      var front, last := snaps[..|snaps| - 1], snaps[|snaps| - 1];
      assert last in snaps && forall s :: s in front ==> s in snaps;
      ImportedPlaced(hash, m, front, shard, count);
    }
  }

  // ---------------------------------------------------------------- evicting

  /** What eviction over all shards promises about the flat map. */
  ghost predicate EvictedFrom(before: map<Key, Entry>, after: map<Key, Entry>, opts: EvictOptions, freed: nat, count: nat) {
    && Shrunk(before, after, opts, freed, count)
    && (freed >= opts.targetBytes || forall k :: k in after ==> !Candidate(opts, after[k]))
  }

  /** Only candidates are gone, and what they weighed is what is reported. */
  ghost predicate Shrunk(before: map<Key, Entry>, after: map<Key, Entry>, opts: EvictOptions, freed: nat, count: nat) {
    && Submap(after, before)
    && (forall k :: k in before && !Candidate(opts, before[k]) ==> k in after)
    && Total(before, Cost()) == Total(after, Cost()) + freed && |before| == |after| + count
  }

  /** The space evicted from loses exactly the reported bytes, and no other space loses any. */
  lemma EvictedSpaces(before: map<Key, Entry>, after: map<Key, Entry>, opts: EvictOptions, freed: nat, count: nat, ref: SpaceRef)
    requires Shrunk(before, after, opts, freed, count)
    ensures Total(before, CostIn(ref)) == Total(after, CostIn(ref)) + if ref == SpaceRef(opts.namespace, opts.space) then freed else 0
  {
    var gone := ShrunkGone(before, after, opts, freed, count);
    hide Total, Sum, Candidate, Shrunk;
    GoneWeighs(before, gone, opts, ref);
    TotalSplit(before, gone, Cost());
    TotalSplit(before, gone, CostIn(ref));
  }

  /** What was evicted, as a set of candidates. */
  lemma ShrunkGone(before: map<Key, Entry>, after: map<Key, Entry>, opts: EvictOptions, freed: nat, count: nat) returns (gone: set<Key>)
    requires Shrunk(before, after, opts, freed, count)
    ensures before - gone == after && before.Keys * gone == gone
    ensures Total(before, Cost()) == Total(before - gone, Cost()) + freed
    ensures forall k :: k in gone ==> k in before && Candidate(opts, before[k])
  {
    hide Total, Candidate;
    gone := before.Keys - after.Keys;
    assert before - gone == after;
  }

  lemma GoneWeighs(before: map<Key, Entry>, gone: set<Key>, opts: EvictOptions, ref: SpaceRef)
    requires forall k :: k in gone ==> k in before && Candidate(opts, before[k])
    ensures Sum(gone, Weigh(before, CostIn(ref)))
         == if ref == SpaceRef(opts.namespace, opts.space) then Sum(gone, Weigh(before, Cost())) else 0
  {
    hide Sum;
    if ref == SpaceRef(opts.namespace, opts.space) {
      SumCong(gone, Weigh(before, Cost()), Weigh(before, CostIn(ref)));
    } else {
      SumZero(gone, Weigh(before, CostIn(ref)));
    }
  }

  datatype Share = Share(freed: nat, count: nat)

  function FreedBy(shares: seq<Share>): nat {
    if shares == [] then 0 else FreedBy(shares[..|shares| - 1]) + shares[|shares| - 1].freed
  }

  function CountBy(shares: seq<Share>): nat {
    if shares == [] then 0 else CountBy(shares[..|shares| - 1]) + shares[|shares| - 1].count
  }

  /** Shard by shard: each visited shard met the contract for what was still missing, and the
      shards after the target was met were left alone. */
  ghost predicate EvictedByShard(before: Maps, after: Maps, opts: EvictOptions, shares: seq<Share>) {
    && |shares| <= |before| == |after|
    && (forall i :: 0 <= i < |shares| ==> ShardShare(before, after, opts, shares, i))
    && (forall i :: |shares| <= i < |before| ==> after[i] == before[i])
  }

  ghost predicate ShardShare(before: Maps, after: Maps, opts: EvictOptions, shares: seq<Share>, i: nat)
    requires i < |shares| <= |before| == |after|
  {
    && FreedBy(shares[..i]) < opts.targetBytes
    && Evicted(before[i], after[i], opts.(targetBytes := opts.targetBytes - FreedBy(shares[..i])), shares[i].freed, shares[i].count)
  }

  lemma ShrinkStep(hash: Text -> nat, before: map<Key, Entry>, maps: Maps, i: nat, m: map<Text, Entry>, opts: EvictOptions, left: nat,
                   freed: nat, count: nat, more: nat, also: nat)
    requires Placed(hash, maps) && i < |maps| && Filed(m)
    requires Shrunk(before, Content(hash, maps), opts, freed, count)
    requires Evicted(maps[i], m, opts.(targetBytes := left), more, also)
    ensures Placed(hash, maps[i := m]) && Shrunk(before, Content(hash, maps[i := m]), opts, freed + more, count + also)
  {
    var next := maps[i := m];
    EvictedSubmap(maps[i], m, opts, left, more, also);
    hide Evicted, Content, Filed, Total, Candidate, Home;
    ShrunkPlaced(hash, maps, i, m);
    hide Placed;
    ShrinkTotals(hash, maps, i, m);
    forall k ensures Lookup(Content(hash, next), k).Some? ==> Lookup(Content(hash, next), k) == Lookup(Content(hash, maps), k) {
      ShrinkAt(hash, maps, i, m, opts, k);
    }
    forall k | k in Content(hash, maps) && !Candidate(opts, Content(hash, maps)[k]) ensures k in Content(hash, next) {
      ShrinkAt(hash, maps, i, m, opts, k);
    }
    ShrunkTrans(before, Content(hash, maps), Content(hash, next), opts, freed, count, more, also);
  }

  lemma ShrunkPlaced(hash: Text -> nat, maps: Maps, i: nat, m: map<Text, Entry>)
    requires Placed(hash, maps) && i < |maps| && Filed(m) && Submap(m, maps[i])
    ensures Placed(hash, maps[i := m])
  {
    hide Filed;
  }

  lemma ShrinkTotals(hash: Text -> nat, maps: Maps, i: nat, m: map<Text, Entry>)
    requires Placed(hash, maps) && i < |maps| && Placed(hash, maps[i := m])
    ensures Total(Content(hash, maps[i := m]), Cost()) + Total(maps[i], Cost()) == Total(Content(hash, maps), Cost()) + Total(m, Cost())
    ensures |Content(hash, maps[i := m])| + |maps[i]| == |Content(hash, maps)| + |m|
  {
    hide Placed, Content, Total;
    var next := maps[i := m];
    ContentTotal(hash, maps, Cost());
    ContentTotal(hash, next, Cost());
    ShardSumUpdate(maps, i, m, Cost());
    SizeIsTotal(Content(hash, maps));
    SizeIsTotal(Content(hash, next));
    SizeIsTotal(maps[i]);
    SizeIsTotal(m);
    ContentTotal(hash, maps, Tally(Everything()));
    ContentTotal(hash, next, Tally(Everything()));
    ShardSumUpdate(maps, i, m, Tally(Everything()));
  }

  lemma EvictedSubmap(before: map<Text, Entry>, after: map<Text, Entry>, opts: EvictOptions, left: nat, freed: nat, count: nat)
    requires Evicted(before, after, opts.(targetBytes := left), freed, count)
    ensures Submap(after, before)
    ensures forall p :: p in before && !Candidate(opts, before[p]) ==> p in after
    ensures Total(before, Cost()) == Total(after, Cost()) + freed && |before| == |after| + count
  {
  }

  lemma ShrinkAt(hash: Text -> nat, maps: Maps, i: nat, m: map<Text, Entry>, opts: EvictOptions, k: Key)
    requires Placed(hash, maps) && i < |maps| && Placed(hash, maps[i := m]) && Submap(m, maps[i])
    requires forall p :: p in maps[i] && !Candidate(opts, maps[i][p]) ==> p in m
    ensures
      var a, b := Lookup(Content(hash, maps), k), Lookup(Content(hash, maps[i := m]), k);
      && (b.Some? ==> a == b)
      && (a.Some? && !Candidate(opts, a.value) ==> a == b)
  {
    hide PhysicalKey, Home, Content, Placed, Candidate;
    ContentAt(hash, maps, k);
    ContentAt(hash, maps[i := m], k);
    HomeInRange(hash, PhysicalKey(k), |maps|);
  }

  lemma ShrunkTrans(a: map<Key, Entry>, b: map<Key, Entry>, c: map<Key, Entry>, opts: EvictOptions, freed: nat, count: nat, more: nat, also: nat)
    requires Shrunk(a, b, opts, freed, count)
    requires forall k :: Lookup(c, k).Some? ==> Lookup(c, k) == Lookup(b, k)
    requires forall k :: k in b && !Candidate(opts, b[k]) ==> k in c
    requires Total(b, Cost()) == Total(c, Cost()) + more && |b| == |c| + also
    ensures Shrunk(a, c, opts, freed + more, count + also)
  {
    hide Total, Candidate;
    forall k | k in c ensures k in a && c[k] == a[k] {
      assert Lookup(c, k) == Lookup(b, k);
    }
  }
}
