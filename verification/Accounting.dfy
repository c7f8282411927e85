/** The running totals a shard keeps, and why each update keeps them exact. */
module Accounting {
  import opened Common
  import opened Entries

  datatype Usage = Usage(objects: nat, memoryBytes: nat)

  // ---------------------------------------------------------------- totals over an entry map

  ghost function Weigh<K>(m: map<K, Entry>, w: Entry -> nat): K -> nat {
    (k: K) => if k in m then w(m[k]) else 0
  }

  ghost function Total<K(!new)>(m: map<K, Entry>, w: Entry -> nat): nat { Sum(m.Keys, Weigh(m, w)) }

  lemma TotalRemove<K(!new)>(m: map<K, Entry>, k: K, w: Entry -> nat)
    requires k in m
    ensures Total(m, w) == Total(m - {k}, w) + w(m[k])
  {
    SumRemove(m.Keys, k, Weigh(m, w));
    SumCong(m.Keys - {k}, Weigh(m, w), Weigh(m - {k}, w));
    assert (m - {k}).Keys == m.Keys - {k};
  }

  lemma TotalPut<K(!new)>(m: map<K, Entry>, k: K, e: Entry, w: Entry -> nat)
    ensures Total(m[k := e], w) == Total(m - {k}, w) + w(e)
  {
    TotalRemove(m[k := e], k, w);
    assert m[k := e] - {k} == m - {k};
  }

  lemma TotalEmpty<K(!new)>(m: map<K, Entry>, w: Entry -> nat)
    requires m == map[]
    ensures Total(m, w) == 0
  {
    assert m.Keys == {};
  }

  /** Totals split over any set of keys. */
  lemma TotalSplit<K(!new)>(m: map<K, Entry>, gone: set<K>, w: Entry -> nat)
    ensures Total(m, w) == Total(m - gone, w) + Sum(m.Keys * gone, Weigh(m, w))
  {
    SumSubset(m.Keys * gone, m.Keys, Weigh(m, w));
    assert m.Keys - m.Keys * gone == (m - gone).Keys;
    SumCong((m - gone).Keys, Weigh(m, w), Weigh(m - gone, w));
  }

  function Cost(): Entry -> nat { (e: Entry) => e.costBytes }

  predicate InSpace(e: Entry, ref: SpaceRef) { SpaceOf(e.key) == ref }

  function CostIn(ref: SpaceRef): Entry -> nat { (e: Entry) => if InSpace(e, ref) then e.costBytes else 0 }

  function CountIn(ref: SpaceRef): Entry -> nat { (e: Entry) => if InSpace(e, ref) then 1 else 0 }

  // ---------------------------------------------------------------- the accounting invariant

  /** The stored usage of one space: exact, and absent exactly when the space has no entry. */
  ghost predicate SpaceAccounted<K(!new)>(entries: map<K, Entry>, spaces: map<SpaceRef, Usage>, ref: SpaceRef) {
    var objects, bytes := Total(entries, CountIn(ref)), Total(entries, CostIn(ref));
    if ref in spaces then spaces[ref] == Usage(objects, bytes) && objects > 0
    else objects == 0 && bytes == 0
  }

  ghost predicate SpacesAccounted<K(!new)>(entries: map<K, Entry>, spaces: map<SpaceRef, Usage>) {
    forall ref :: SpaceAccounted(entries, spaces, ref)
  }

  ghost predicate Accounted(entries: map<Text, Entry>, spaces: map<SpaceRef, Usage>, objects: nat, memoryBytes: nat) {
    && objects == |entries| && memoryBytes == Total(entries, Cost())
    && SpacesAccounted(entries, spaces)
  }

  /** Every entry is filed under its own physical key and carries its own cost. */
  ghost predicate Filed(entries: map<Text, Entry>) {
    forall p :: p in entries ==> p == PhysicalKey(entries[p].key) && EntryFor(entries[p].key, entries[p]) && ValidKey(entries[p].key)
  }

  function UsageAt(spaces: map<SpaceRef, Usage>, ref: SpaceRef): Usage {
    if ref in spaces then spaces[ref] else Usage(0, 0)
  }

  function AddUsage(spaces: map<SpaceRef, Usage>, ref: SpaceRef, objects: nat, memoryBytes: nat): map<SpaceRef, Usage> {
    var usage := UsageAt(spaces, ref);
    spaces[ref := Usage(usage.objects + objects, usage.memoryBytes + memoryBytes)]
  }

  function SubtractUsage(spaces: map<SpaceRef, Usage>, ref: SpaceRef, objects: nat, memoryBytes: nat): map<SpaceRef, Usage>
    requires UsageAt(spaces, ref).objects >= objects && UsageAt(spaces, ref).memoryBytes >= memoryBytes
  {
    var usage := UsageAt(spaces, ref);
    if usage.objects == objects && usage.memoryBytes == memoryBytes then spaces - {ref}
    else spaces[ref := Usage(usage.objects - objects, usage.memoryBytes - memoryBytes)]
  }

  lemma AccountInsert(entries: map<Text, Entry>, spaces: map<SpaceRef, Usage>, p: Text, e: Entry)
    requires SpacesAccounted(entries, spaces) && p !in entries
    ensures SpacesAccounted(entries[p := e], AddUsage(spaces, SpaceOf(e.key), 1, e.costBytes))
    ensures Total(entries[p := e], Cost()) == Total(entries, Cost()) + e.costBytes
    ensures |entries[p := e]| == |entries| + 1
  {
    hide Total;
    assert entries - {p} == entries;
    TotalPut(entries, p, e, Cost());
    var next, used := entries[p := e], AddUsage(spaces, SpaceOf(e.key), 1, e.costBytes);
    forall ref ensures SpaceAccounted(next, used, ref) {
      assert SpaceAccounted(entries, spaces, ref);
      TotalPut(entries, p, e, CostIn(ref));
      TotalPut(entries, p, e, CountIn(ref));
    }
  }

  /** The subtraction of a stored entry never goes below zero, and leaves no empty space behind. */
  lemma AccountRemove(entries: map<Text, Entry>, spaces: map<SpaceRef, Usage>, p: Text)
    requires SpacesAccounted(entries, spaces) && p in entries
    ensures
      var e := entries[p];
      && UsageAt(spaces, SpaceOf(e.key)).objects >= 1
      && UsageAt(spaces, SpaceOf(e.key)).memoryBytes >= e.costBytes
      && SpacesAccounted(entries - {p}, SubtractUsage(spaces, SpaceOf(e.key), 1, e.costBytes))
    ensures Total(entries, Cost()) == Total(entries - {p}, Cost()) + entries[p].costBytes
    ensures |entries - {p}| == |entries| - 1
  {
    hide Total;
    var e := entries[p];
    TotalRemove(entries, p, Cost());
    assert |(entries - {p}).Keys| == |entries.Keys - {p}|;
    assert SpaceAccounted(entries, spaces, SpaceOf(e.key));
    TotalRemove(entries, p, CostIn(SpaceOf(e.key)));
    TotalRemove(entries, p, CountIn(SpaceOf(e.key)));
    hide SpaceAccounted, SubtractUsage, UsageAt;
    forall ref ensures SpaceAccounted(entries - {p}, SubtractUsage(spaces, SpaceOf(e.key), 1, e.costBytes), ref) {
      assert SpaceAccounted(entries, spaces, ref);
      SpaceRemove(entries, spaces, p, ref);
    }
  }

  lemma SpaceRemove(entries: map<Text, Entry>, spaces: map<SpaceRef, Usage>, p: Text, ref: SpaceRef)
    requires p in entries && SpaceAccounted(entries, spaces, ref)
    requires
      var usage := UsageAt(spaces, SpaceOf(entries[p].key));
      usage.objects >= 1 && usage.memoryBytes >= entries[p].costBytes
    ensures SpaceAccounted(entries - {p}, SubtractUsage(spaces, SpaceOf(entries[p].key), 1, entries[p].costBytes), ref)
  {
    hide Total;
    TotalRemove(entries, p, CostIn(ref));
    TotalRemove(entries, p, CountIn(ref));
    NoObjectsNoBytes(entries - {p}, ref);
  }

  /** A space without entries holds no bytes. */
  lemma NoObjectsNoBytes<K(!new)>(entries: map<K, Entry>, ref: SpaceRef)
    ensures Total(entries, CountIn(ref)) == 0 ==> Total(entries, CostIn(ref)) == 0
  {
    if Total(entries, CountIn(ref)) == 0 {
      forall p | p in entries ensures !InSpace(entries[p], ref) {
        TotalRemove(entries, p, CountIn(ref));
      }
      SumZero(entries.Keys, Weigh(entries, CostIn(ref)));
    }
  }

  lemma {:induction false} SumZero<K(!new)>(s: set<K>, f: K -> nat)
    requires forall k :: k in s ==> f(k) == 0
    ensures Sum(s, f) == 0
    decreases |s|
  {
    if s != {} {
      var k :| k in s;
      SumRemove(s, k, f);
      SumZero(s - {k}, f);
    }
  }

  /** Replacing an entry by one of the same space. */
  lemma AccountReplace(entries: map<Text, Entry>, spaces: map<SpaceRef, Usage>, p: Text, e: Entry)
    requires SpacesAccounted(entries, spaces) && p in entries && SpaceOf(entries[p].key) == SpaceOf(e.key)
    ensures
      var was, now := entries[p].costBytes, e.costBytes;
      var ref := SpaceOf(e.key);
      && (now >= was ==> SpacesAccounted(entries[p := e], AddUsage(spaces, ref, 0, now - was)))
      && (now < was ==>
            && UsageAt(spaces, ref).memoryBytes >= was - now
            && SpacesAccounted(entries[p := e], SubtractUsage(spaces, ref, 0, was - now)))
    ensures Total(entries[p := e], Cost()) + entries[p].costBytes == Total(entries, Cost()) + e.costBytes
    ensures Total(entries, Cost()) >= entries[p].costBytes
    ensures |entries[p := e]| == |entries|
  {
    hide Total;
    var was, now := entries[p].costBytes, e.costBytes;
    var ref := SpaceOf(e.key);
    TotalRemove(entries, p, Cost());
    TotalPut(entries, p, e, Cost());
    assert entries[p := e].Keys == entries.Keys;
    assert SpaceAccounted(entries, spaces, ref);
    TotalRemove(entries, p, CostIn(ref));
    TotalRemove(entries, p, CountIn(ref));
    var next := entries[p := e];
    var used := if now >= was then AddUsage(spaces, ref, 0, now - was) else SubtractUsage(spaces, ref, 0, was - now);
    forall other ensures SpaceAccounted(next, used, other) {
      assert SpaceAccounted(entries, spaces, other);
      TotalRemove(entries, p, CostIn(other));
      TotalRemove(entries, p, CountIn(other));
      TotalPut(entries, p, e, CostIn(other));
      TotalPut(entries, p, e, CountIn(other));
    }
  }

  /** Replacing an entry by one of the same space and cost leaves every total as it was. */
  lemma AccountUpdate(entries: map<Text, Entry>, spaces: map<SpaceRef, Usage>, p: Text, e: Entry)
    requires SpacesAccounted(entries, spaces) && p in entries
    requires SpaceOf(entries[p].key) == SpaceOf(e.key) && entries[p].costBytes == e.costBytes
    ensures SpacesAccounted(entries[p := e], spaces)
    ensures Total(entries[p := e], Cost()) == Total(entries, Cost())
    ensures |entries[p := e]| == |entries|
  {
    var ref := SpaceOf(e.key);
    AccountReplace(entries, spaces, p, e);
    assert SpaceAccounted(entries, spaces, ref);
    TotalRemove(entries, p, CountIn(ref));
    assert AddUsage(spaces, ref, 0, 0) == spaces;
  }

  lemma AccountEmpty()
    ensures Accounted(map[], map[], 0, 0)
  {
    forall w ensures Total<Text>(map[], w) == 0 { TotalEmpty<Text>(map[], w); }
  }
}
