/** What eviction, sweeping, range moves and restoring mean for one shard's entry map. */
module Removal {
  import opened Common
  import opened Entries
  import opened Accounting

  // ---------------------------------------------------------------- ranges and sweeps

  /** The FNV slot function of routing/routing.go, which this model leaves open; the entity part
      of a key does not take part in it. */
  type SlotFunction = (Text, Text, Text) -> nat

  datatype RangeOptions = RangeOptions(namespace: Text, space: Text, vslotStart: nat, vslotEnd: nat)

  predicate ValidRange(r: RangeOptions) {
    r.namespace != [] && r.space != [] && r.vslotStart <= r.vslotEnd
  }

  predicate KeyInRange(slot: SlotFunction, key: Key, r: RangeOptions) {
    key.namespace == r.namespace && key.space == r.space
    && r.vslotStart <= slot(key.namespace, key.space, key.key) <= r.vslotEnd
  }

  function ExpiredAt(now: int): Entry -> bool { (e: Entry) => Expired(e, now) }

  function InRangeOf(slot: SlotFunction, r: RangeOptions): Entry -> bool { (e: Entry) => KeyInRange(slot, e.key, r) }

  function ExportedBy(slot: SlotFunction, r: RangeOptions, now: int): Entry -> bool {
    (e: Entry) => !Expired(e, now) && KeyInRange(slot, e.key, r)
  }

  function Everything(): Entry -> bool { (e: Entry) => true }

  /** The part of a map a test selects, and the part it leaves. */
  function Selected<K>(m: map<K, Entry>, test: Entry -> bool): map<K, Entry> { map k | k in m && test(m[k]) :: m[k] }

  function Rejected<K>(m: map<K, Entry>, test: Entry -> bool): map<K, Entry> { map k | k in m && !test(m[k]) :: m[k] }

  // ---------------------------------------------------------------- eviction

  datatype EvictOptions = EvictOptions(namespace: Text, space: Text, targetBytes: nat, exclude: Option<Key>, now: int)

  predicate Candidate(opts: EvictOptions, e: Entry) {
    (opts.exclude.Some? ==> e.key != opts.exclude.value) && e.key.namespace == opts.namespace && e.key.space == opts.space
  }

  /** Least recently used first, older entries first among equals. */
  predicate LruLe(a: Entry, b: Entry) {
    if a.lastAccessAt == b.lastAccessAt then a.createdAt <= b.createdAt else a.lastAccessAt < b.lastAccessAt
  }

  lemma LruOrder()
    ensures Preorder(LruLe)
  {
  }

  ghost predicate Submap<K>(small: map<K, Entry>, large: map<K, Entry>) {
    forall k :: k in small ==> k in large && small[k] == large[k]
  }

  /** A live entry that was evicted. */
  ghost predicate Victim<K>(before: map<K, Entry>, after: map<K, Entry>, opts: EvictOptions, k: K) {
    k in before && k !in after && !Expired(before[k], opts.now)
  }

  /** `last` was evicted last, and without it the target would have been missed. */
  ghost predicate NeededLast<K(!new)>(before: map<K, Entry>, after: map<K, Entry>, opts: EvictOptions, freed: nat, last: K) {
    && Victim(before, after, opts, last)
    && freed < opts.targetBytes + before[last].costBytes
    && forall k :: Victim(before, after, opts, k) ==> LruLe(before[k], before[last])
  }

  /** The eviction contract of one shard. */
  ghost predicate Evicted<K(!new)>(before: map<K, Entry>, after: map<K, Entry>, opts: EvictOptions, freed: nat, count: nat) {
    && Submap(after, before)
    // the excluded key and the other spaces are untouched
    && (forall k :: k in before && !Candidate(opts, before[k]) ==> k in after)
    // everything that had expired goes, whatever the target
    && (forall k :: k in before && Candidate(opts, before[k]) && Expired(before[k], opts.now) ==> k !in after)
    // what is reported is what was freed
    && Total(before, Cost()) == Total(after, Cost()) + freed && |before| == |after| + count
    // the target is met unless nothing is left to evict
    && (freed >= opts.targetBytes || forall k :: k in after ==> !Candidate(opts, after[k]))
    // least recently used first
    && (forall p, q :: Victim(before, after, opts, p) && q in after && Candidate(opts, after[q]) ==> LruLe(before[p], after[q]))
    // and not one more than needed
    && ((exists p :: Victim(before, after, opts, p)) ==> exists last :: NeededLast(before, after, opts, freed, last))
  }

  ghost predicate LiveCandidate(before: map<Text, Entry>, opts: EvictOptions, e: Entry) {
    var p := PhysicalKey(e.key);
    p in before && before[p] == e && Candidate(opts, e) && !Expired(e, opts.now)
  }

  /** The live candidates in some order. */
  ghost predicate Queue(before: map<Text, Entry>, opts: EvictOptions, queue: seq<Entry>) {
    NoDuplicates(queue) && forall e :: e in queue <==> LiveCandidate(before, opts, e)
  }

  /** The map once the expired candidates and the first `n` of the queue are gone. */
  ghost predicate CutAt(before: map<Text, Entry>, after: map<Text, Entry>, opts: EvictOptions, queue: seq<Entry>, n: nat)
    requires n <= |queue|
  {
    && Submap(after, before)
    && forall p :: p in before ==>
         (p !in after <==> Candidate(opts, before[p]) && (Expired(before[p], opts.now) || before[p] in queue[..n]))
  }

  lemma VictimQueued(before: map<Text, Entry>, after: map<Text, Entry>, opts: EvictOptions, queue: seq<Entry>, n: nat, p: Text)
    returns (i: nat)
    requires n <= |queue| && CutAt(before, after, opts, queue, n) && Victim(before, after, opts, p)
    ensures i < n && queue[i] == before[p]
  {
    i :| 0 <= i < n && queue[..n][i] == before[p];
  }

  lemma SurvivorQueued(before: map<Text, Entry>, after: map<Text, Entry>, opts: EvictOptions, queue: seq<Entry>, n: nat, q: Text)
    returns (j: nat)
    requires Filed(before) && Queue(before, opts, queue) && n <= |queue| && CutAt(before, after, opts, queue, n)
    requires q in after && Candidate(opts, after[q])
    ensures n <= j < |queue| && queue[j] == after[q]
  {
    hide PhysicalKey;
    assert q in before && before[q] == after[q] && !Expired(before[q], opts.now) && before[q] !in queue[..n];
    assert LiveCandidate(before, opts, before[q]);
    j :| 0 <= j < |queue| && queue[j] == before[q];
  }

  lemma QueuedVictim(before: map<Text, Entry>, after: map<Text, Entry>, opts: EvictOptions, queue: seq<Entry>, n: nat, i: nat)
    requires Queue(before, opts, queue) && n <= |queue| && CutAt(before, after, opts, queue, n) && i < n
    ensures Victim(before, after, opts, PhysicalKey(queue[i].key)) && before[PhysicalKey(queue[i].key)] == queue[i]
  {
    hide PhysicalKey;
    assert queue[..n][i] == queue[i];
    assert LiveCandidate(before, opts, queue[i]);
  }

  lemma CutIsEviction(before: map<Text, Entry>, after: map<Text, Entry>, opts: EvictOptions, queue: seq<Entry>, n: nat, freed: nat, count: nat)
    requires Filed(before) && Queue(before, opts, queue) && SortedBy(queue, LruLe) && n <= |queue| && CutAt(before, after, opts, queue, n)
    requires Total(before, Cost()) == Total(after, Cost()) + freed && |before| == |after| + count
    requires freed >= opts.targetBytes || n == |queue|
    requires n > 0 ==> freed < opts.targetBytes + queue[n - 1].costBytes
    ensures Evicted(before, after, opts, freed, count)
  {
    hide Total, PhysicalKey, LruLe, Queue, CutAt, Candidate, Expired, Filed, Victim, NeededLast, SortedBy;
    CutRemoves(before, after, opts, queue, n);
    CutIsLru(before, after, opts, queue, n);
    CutIsNeeded(before, after, opts, queue, n, freed);
    forall q | q in after && Candidate(opts, after[q]) ensures n < |queue| {
      var j := SurvivorQueued(before, after, opts, queue, n, q);
    }
  }

  lemma CutIsLru(before: map<Text, Entry>, after: map<Text, Entry>, opts: EvictOptions, queue: seq<Entry>, n: nat)
    requires Filed(before) && Queue(before, opts, queue) && SortedBy(queue, LruLe) && n <= |queue| && CutAt(before, after, opts, queue, n)
    ensures forall p, q :: Victim(before, after, opts, p) && q in after && Candidate(opts, after[q]) ==> LruLe(before[p], after[q])
  {
    hide PhysicalKey, LruLe, Queue, CutAt, Candidate, Expired, Filed;
    forall p, q | Victim(before, after, opts, p) && q in after && Candidate(opts, after[q]) ensures LruLe(before[p], after[q]) {
      var i := VictimQueued(before, after, opts, queue, n, p);
      var j := SurvivorQueued(before, after, opts, queue, n, q);
    }
  }

  lemma CutIsNeeded(before: map<Text, Entry>, after: map<Text, Entry>, opts: EvictOptions, queue: seq<Entry>, n: nat, freed: nat)
    requires Filed(before) && Queue(before, opts, queue) && SortedBy(queue, LruLe) && n <= |queue| && CutAt(before, after, opts, queue, n)
    requires n > 0 ==> freed < opts.targetBytes + queue[n - 1].costBytes
    ensures (exists p :: Victim(before, after, opts, p)) ==> exists last :: NeededLast(before, after, opts, freed, last)
  {
    hide PhysicalKey, LruLe, Queue, CutAt, Candidate, Expired, Filed;
    LruReflexive();
    forall p | Victim(before, after, opts, p) ensures n > 0 && LruLe(before[p], queue[n - 1]) {
      var i := VictimQueued(before, after, opts, queue, n, p);
    }
    if n > 0 {
      QueuedVictim(before, after, opts, queue, n, n - 1);
      assert NeededLast(before, after, opts, freed, PhysicalKey(queue[n - 1].key));
    }
  }

  lemma CutRemoves(before: map<Text, Entry>, after: map<Text, Entry>, opts: EvictOptions, queue: seq<Entry>, n: nat)
    requires n <= |queue| && CutAt(before, after, opts, queue, n)
    ensures Submap(after, before)
    ensures forall k :: k in before && !Candidate(opts, before[k]) ==> k in after
    ensures forall k :: k in before && Candidate(opts, before[k]) && Expired(before[k], opts.now) ==> k !in after
  {
  }

  lemma LruReflexive()
    ensures forall e :: LruLe(e, e)
  {
  }

  // ---------------------------------------------------------------- duplicates

  ghost predicate NoDuplicates<T>(xs: seq<T>) { forall i, j :: 0 <= i < j < |xs| ==> xs[i] != xs[j] }

  lemma {:induction false} Multiplicity<T>(xs: seq<T>, x: T)
    ensures NoDuplicates(xs) ==> multiset(xs)[x] <= 1
  {
    if xs != [] {
      assert xs == [xs[0]] + xs[1..];
      Multiplicity(xs[1..], x);
      if NoDuplicates(xs) && xs[0] == x { assert x !in xs[1..]; }
    }
  }

  /** Sorting introduces no duplicates. */
  lemma RearrangedDistinct<T>(xs: seq<T>, ys: seq<T>)
    requires multiset(xs) == multiset(ys) && NoDuplicates(xs)
    ensures NoDuplicates(ys)
  {
    forall i, j | 0 <= i < j < |ys| ensures ys[i] != ys[j] {
      if ys[i] == ys[j] {
        var a, b := ys[..j], ys[j..];
        assert ys == a + b;
        assert a[i] in multiset(a) && b[0] in multiset(b);
        assert multiset(ys) == multiset(a) + multiset(b);
        Multiplicity(xs, ys[i]);
      }
    }
  }

  // ---------------------------------------------------------------- imports and restores

  function ImportOne(m: map<Text, Entry>, e: Entry): map<Text, Entry> {
    var p := PhysicalKey(e.key);
    if p in m && !ShouldImport(m[p], e) then m else m[p := e]
  }

  function ImportAll(m: map<Text, Entry>, snaps: seq<Snap>): map<Text, Entry> {
    if snaps == [] then m
    else ImportOne(ImportAll(m, snaps[..|snaps| - 1]), EntryOf(snaps[|snaps| - 1]))
  }

  /** How many of the snapshots were taken over. */
  function AcceptedCount(m: map<Text, Entry>, snaps: seq<Snap>): nat {
    if snaps == [] then 0
    else
      var earlier, last := snaps[..|snaps| - 1], EntryOf(snaps[|snaps| - 1]);
      var before := ImportAll(m, earlier);
      var p := PhysicalKey(last.key);
      AcceptedCount(m, earlier) + if p in before && !ShouldImport(before[p], last) then 0 else 1
  }

  /** Whether an incoming entry is taken over. */
  predicate TakenOver(was: Option<Entry>, incoming: Entry) { was.None? || ShouldImport(was.value, incoming) }

  /** What importing leaves under one key. */
  function ImportedFor(was: Option<Entry>, snaps: seq<Snap>, key: Key): Option<Entry> {
    if snaps == [] then was
    else
      var earlier := ImportedFor(was, snaps[..|snaps| - 1], key);
      var last := snaps[|snaps| - 1];
      if last.key == key then ImportOver(earlier, EntryOf(last)) else earlier
  }

  /** How many of the snapshots a flat map takes over. */
  function AcceptedFlat(content: map<Key, Entry>, snaps: seq<Snap>): nat {
    if snaps == [] then 0
    else
      var earlier, last := snaps[..|snaps| - 1], EntryOf(snaps[|snaps| - 1]);
      AcceptedFlat(content, earlier) + if TakenOver(ImportedFor(Lookup(content, last.key), earlier, last.key), last) then 1 else 0
  }

  lemma {:induction false} ImportAllAt(m: map<Text, Entry>, snaps: seq<Snap>, key: Key)
    ensures Lookup(ImportAll(m, snaps), PhysicalKey(key)) == ImportedFor(Lookup(m, PhysicalKey(key)), snaps, key)
  {
    hide PhysicalKey;
    if snaps != [] {
      ImportAllAt(m, snaps[..|snaps| - 1], key);
      var last := snaps[|snaps| - 1];
      if PhysicalKey(last.key) == PhysicalKey(key) { PhysicalKeyInjective(last.key, key); }
    }
  }

  /** The snapshots before the first one with an invalid key. */
  function ValidPrefix(snaps: seq<Snap>): (r: seq<Snap>)
    ensures r <= snaps && forall i :: 0 <= i < |r| ==> ValidKey(r[i].key)
    ensures |r| < |snaps| ==> !ValidKey(snaps[|r|].key)
  {
    if snaps == [] || !ValidKey(snaps[0].key) then [] else [snaps[0]] + ValidPrefix(snaps[1..])
  }

  lemma {:induction false} ValidPrefixIs(snaps: seq<Snap>, n: nat)
    requires n <= |snaps| && (forall i :: 0 <= i < n ==> ValidKey(snaps[i].key))
    requires n < |snaps| ==> !ValidKey(snaps[n].key)
    ensures ValidPrefix(snaps) == snaps[..n]
  {
    if n > 0 {
      ValidPrefixIs(snaps[1..], n - 1);
    }
  }

  /** Restoring keeps the last snapshot of every key. */
  function RestoreAll(snaps: seq<Snap>): map<Text, Entry> {
    if snaps == [] then map[]
    else
      var last := EntryOf(snaps[|snaps| - 1]);
      RestoreAll(snaps[..|snaps| - 1])[PhysicalKey(last.key) := last]
  }

  /** What restoring leaves under one key: its last snapshot. */
  function RestoredFor(snaps: seq<Snap>, key: Key): Option<Entry> {
    if snaps == [] then None
    else if snaps[|snaps| - 1].key == key then Some(EntryOf(snaps[|snaps| - 1]))
    else RestoredFor(snaps[..|snaps| - 1], key)
  }

  lemma {:induction false} RestoreAllAt(snaps: seq<Snap>, key: Key)
    ensures Lookup(RestoreAll(snaps), PhysicalKey(key)) == RestoredFor(snaps, key)
  {
    hide PhysicalKey;
    if snaps != [] {
      var last := snaps[|snaps| - 1];
      RestoreAllAt(snaps[..|snaps| - 1], key);
      if PhysicalKey(last.key) == PhysicalKey(key) { PhysicalKeyInjective(last.key, key); }
    }
  }

  ghost predicate DistinctKeys(snaps: seq<Snap>) {
    forall i, j :: 0 <= i < j < |snaps| ==> snaps[i].key != snaps[j].key
  }

  lemma {:induction false} RestoreKeys(snaps: seq<Snap>, p: Text)
    ensures p in RestoreAll(snaps) <==> exists i :: 0 <= i < |snaps| && PhysicalKey(snaps[i].key) == p
  {
    hide PhysicalKey;
    if snaps != [] {
      RestoreKeys(snaps[..|snaps| - 1], p);
      if p in RestoreAll(snaps) && p != PhysicalKey(snaps[|snaps| - 1].key) {
        var i :| 0 <= i < |snaps| - 1 && PhysicalKey(snaps[..|snaps| - 1][i].key) == p;
        assert PhysicalKey(snaps[i].key) == p;
      }
      if i :| 0 <= i < |snaps| && PhysicalKey(snaps[i].key) == p {
        if i < |snaps| - 1 { assert PhysicalKey(snaps[..|snaps| - 1][i].key) == p; }
      }
    }
  }

  /** A restored map has as many entries as snapshots exactly when no key repeats. */
  lemma {:induction false} RestoreCount(snaps: seq<Snap>)
    ensures |RestoreAll(snaps)| <= |snaps|
    ensures |RestoreAll(snaps)| == |snaps| <==> DistinctKeys(snaps)
  {
    hide PhysicalKey;
    if snaps != [] {
      var front, last := snaps[..|snaps| - 1], snaps[|snaps| - 1];
      RestoreCount(front);
      var p := PhysicalKey(last.key);
      RestoreKeys(front, p);
      var before, after := RestoreAll(front), RestoreAll(snaps);
      assert after.Keys == before.Keys + {p};
      if p in before {
        var i :| 0 <= i < |front| && PhysicalKey(front[i].key) == p;
        PhysicalKeyInjective(front[i].key, last.key);
        assert snaps[i].key == snaps[|snaps| - 1].key;
        assert after.Keys == before.Keys;
      } else {
        assert |after| == |before| + 1;
        assert DistinctKeys(front) ==> DistinctKeys(snaps) by {
          forall i | 0 <= i < |front| ensures snaps[i].key != last.key {
            assert PhysicalKey(front[i].key) != p;
          }
        }
        assert DistinctKeys(snaps) ==> DistinctKeys(front);
      }
    }
  }
}
