/** Usage per space and per namespace, aggregated over shards (cache/engine/stats.go and
    `usageFor` of cache/quota.go). */
module SpaceStatistics {
  import opened Common
  import opened Entries
  import opened Accounting
  import opened Removal

  datatype SpaceStats = SpaceStats(ref: SpaceRef, usage: Usage)

  function CostInNamespace(namespace: Text): Entry -> nat {
    (e: Entry) => if e.key.namespace == namespace then e.costBytes else 0
  }

  /** Adds one shard's usage to the running total, visiting the shard's map in any order. */
  method AddSpaceStats(total: map<SpaceRef, Usage>, shard: map<SpaceRef, Usage>) returns (next: map<SpaceRef, Usage>)
    ensures next.Keys == total.Keys + shard.Keys
    ensures forall ref :: UsageAt(next, ref) == PlusUsage(UsageAt(total, ref), UsageAt(shard, ref))
  {
    hide Added, UsageAt, PlusUsage;
    next := total;
    var todo := shard.Keys;
    AddedStart(total, shard);
    while todo != {}
      invariant todo <= shard.Keys && Added(total, shard, todo, next)
      decreases |todo|
    {
      var ref :| ref in todo;
      AddedStep(total, shard, todo, next, ref);
      next := next[ref := PlusUsage(UsageAt(next, ref), shard[ref])];
      todo := todo - {ref};
    }
    AddedDone(total, shard, next);
  }

  lemma AddedStart(total: map<SpaceRef, Usage>, shard: map<SpaceRef, Usage>)
    ensures Added(total, shard, shard.Keys, total)
  {
  }

  lemma AddedDone(total: map<SpaceRef, Usage>, shard: map<SpaceRef, Usage>, next: map<SpaceRef, Usage>)
    requires Added(total, shard, {}, next)
    ensures next.Keys == total.Keys + shard.Keys
    ensures forall ref :: UsageAt(next, ref) == PlusUsage(UsageAt(total, ref), UsageAt(shard, ref))
  {
    hide UsageAt;
  }

  /** All of the shard's usage has been added except that of `todo`. */
  ghost predicate Added(total: map<SpaceRef, Usage>, shard: map<SpaceRef, Usage>, todo: set<SpaceRef>, next: map<SpaceRef, Usage>) {
    && next.Keys == total.Keys + (shard.Keys - todo)
    && forall ref :: UsageAt(next, ref) ==
         if ref in todo then UsageAt(total, ref) else PlusUsage(UsageAt(total, ref), UsageAt(shard, ref))
  }

  lemma AddedStep(total: map<SpaceRef, Usage>, shard: map<SpaceRef, Usage>, todo: set<SpaceRef>, next: map<SpaceRef, Usage>, ref: SpaceRef)
    requires ref in todo && todo <= shard.Keys && Added(total, shard, todo, next)
    ensures Added(total, shard, todo - {ref}, next[ref := PlusUsage(UsageAt(next, ref), shard[ref])])
  {
    var more := next[ref := PlusUsage(UsageAt(next, ref), shard[ref])];
    forall other ensures UsageAt(more, other) ==
        if other in todo - {ref} then UsageAt(total, other) else PlusUsage(UsageAt(total, other), UsageAt(shard, other)) {
      assert UsageAt(next, other) == if other in todo then UsageAt(total, other) else PlusUsage(UsageAt(total, other), UsageAt(shard, other));
    }
  }

  function PlusUsage(a: Usage, b: Usage): Usage { Usage(a.objects + b.objects, a.memoryBytes + b.memoryBytes) }

  /** The statistics list every space that has entries, once, with its exact usage. */
  ghost predicate StatsOf(content: map<Key, Entry>, items: seq<SpaceStats>) {
    && (forall i, j :: 0 <= i < j < |items| ==> items[i].ref != items[j].ref)
    && (forall i :: 0 <= i < |items| ==> items[i].usage == UsageOf(content, items[i].ref))
    && (forall k :: k in content ==> Listed(items, SpaceOf(k)))
  }

  ghost predicate Listed(items: seq<SpaceStats>, ref: SpaceRef) { exists i :: 0 <= i < |items| && items[i].ref == ref }

  ghost function UsageOf(content: map<Key, Entry>, ref: SpaceRef): Usage {
    Usage(Total(content, CountIn(ref)), Total(content, CostIn(ref)))
  }

  predicate StatLe(a: SpaceStats, b: SpaceStats) {
    if a.ref.namespace == b.ref.namespace then TextLe(a.ref.space, b.ref.space) else TextLe(a.ref.namespace, b.ref.namespace)
  }

  method BuildSpaceStats(spaces: map<SpaceRef, Usage>, ghost content: map<Key, Entry>) returns (items: seq<SpaceStats>)
    requires SpacesAccounted(content, spaces) && forall k :: k in content ==> content[k].key == k
    ensures StatsOf(content, items)
  {
    hide SpacesAccounted;
    var out: seq<SpaceStats> := [];
    var todo := spaces.Keys;
    while todo != {}
      invariant todo <= spaces.Keys && DistinctRefs(out)
      invariant forall item :: item in out <==> item.ref in spaces && item.ref !in todo && item.usage == spaces[item.ref]
      decreases |todo|
    {
      var ref :| ref in todo;
      todo := todo - {ref};
      out := out + [SpaceStats(ref, spaces[ref])];
    }
    items := Sort(out, StatLe);
    SortedStats(spaces, content, out);
  }

  ghost predicate DistinctRefs(items: seq<SpaceStats>) {
    forall i, j :: 0 <= i < j < |items| ==> items[i].ref != items[j].ref
  }

  lemma SortedStats(spaces: map<SpaceRef, Usage>, content: map<Key, Entry>, out: seq<SpaceStats>)
    requires SpacesAccounted(content, spaces) && forall k :: k in content ==> content[k].key == k
    requires DistinctRefs(out) && forall item :: item in out <==> item.ref in spaces && item.usage == spaces[item.ref]
    ensures StatsOf(content, Sort(out, StatLe))
  {
    hide StatLe, SpacesAccounted;
    var items := Sort(out, StatLe);
    assert forall item :: item in items <==> item in multiset(items);
    assert forall item :: item in out <==> item in multiset(out);
    RearrangedDistinct(out, items);
    ListedStats(spaces, content, items);
  }

  lemma ListedStats(spaces: map<SpaceRef, Usage>, content: map<Key, Entry>, items: seq<SpaceStats>)
    requires SpacesAccounted(content, spaces) && forall k :: k in content ==> content[k].key == k
    requires NoDuplicates(items) && forall item :: item in items <==> item.ref in spaces && item.usage == spaces[item.ref]
    ensures StatsOf(content, items)
  {
    hide Total;
    forall i | 0 <= i < |items| ensures items[i].usage == UsageOf(content, items[i].ref) {
      assert items[i] in items;
      assert SpaceAccounted(content, spaces, items[i].ref);
    }
    hide SpacesAccounted;
    forall i, j | 0 <= i < j < |items| ensures items[i].ref != items[j].ref {
      assert items[i] in items && items[j] in items && items[i] != items[j];
    }
    forall k | k in content ensures Listed(items, SpaceOf(k)) {
      SpaceKept(spaces, content, k);
      assert SpaceStats(SpaceOf(k), spaces[SpaceOf(k)]) in items;
    }
  }

  lemma SpaceKept(spaces: map<SpaceRef, Usage>, content: map<Key, Entry>, k: Key)
    requires SpacesAccounted(content, spaces) && k in content && content[k].key == k
    ensures SpaceOf(k) in spaces
  {
    hide Total;
    TotalRemove(content, k, CountIn(SpaceOf(k)));
    assert SpaceAccounted(content, spaces, SpaceOf(k));
  }

  // ---------------------------------------------------------------- usage of a space and its namespace

  /** The bytes of the entries whose space is in `seen` and satisfies `test`. */
  ghost function CostAmong(seen: set<SpaceRef>, test: SpaceRef -> bool): Entry -> nat {
    (e: Entry) => if SpaceOf(e.key) in seen && test(SpaceOf(e.key)) then e.costBytes else 0
  }

  lemma {:induction false} SumAdd<K(!new)>(s: set<K>, f: K -> nat, g: K -> nat, h: K -> nat)
    requires forall k :: k in s ==> h(k) == f(k) + g(k)
    ensures Sum(s, h) == Sum(s, f) + Sum(s, g)
    decreases |s|
  {
    if s != {} {
      var k :| k in s;
      SumRemove(s, k, f);
      SumRemove(s, k, g);
      SumRemove(s, k, h);
      SumAdd(s - {k}, f, g, h);
    }
  }

  lemma SeenOneMore(content: map<Key, Entry>, seen: set<SpaceRef>, ref: SpaceRef, test: SpaceRef -> bool)
    requires ref !in seen
    ensures Total(content, CostAmong(seen + {ref}, test))
         == Total(content, CostAmong(seen, test)) + if test(ref) then Total(content, CostIn(ref)) else 0
  {
    hide Sum;
    var before, after := Weigh(content, CostAmong(seen, test)), Weigh(content, CostAmong(seen + {ref}, test));
    if test(ref) {
      SumAdd(content.Keys, before, Weigh(content, CostIn(ref)), after);
    } else {
      SumCong(content.Keys, before, after);
    }
  }

  lemma SeenNone(content: map<Key, Entry>, test: SpaceRef -> bool)
    ensures Total(content, CostAmong({}, test)) == 0
  {
    SumZero(content.Keys, Weigh(content, CostAmong({}, test)));
  }

  /** When every space with entries has been seen, nothing is missed. */
  lemma SeenAll(content: map<Key, Entry>, items: seq<SpaceStats>, test: SpaceRef -> bool, w: Entry -> nat)
    requires StatsOf(content, items) && (forall k :: k in content ==> content[k].key == k)
    requires forall e :: w(e) == if test(SpaceOf(e.key)) then e.costBytes else 0
    ensures Total(content, CostAmong(Refs(items), test)) == Total(content, w)
  {
    hide Sum, Total;
    forall k | k in content ensures SpaceOf(k) in Refs(items) {
      assert Listed(items, SpaceOf(k));
    }
    WeighSame(content, CostAmong(Refs(items), test), w);
  }

  lemma WeighSame(content: map<Key, Entry>, v: Entry -> nat, w: Entry -> nat)
    requires forall k :: k in content ==> v(content[k]) == w(content[k])
    ensures Total(content, v) == Total(content, w)
  {
    SumCong(content.Keys, Weigh(content, v), Weigh(content, w));
  }

  ghost function Refs(items: seq<SpaceStats>): set<SpaceRef> { set i | 0 <= i < |items| :: items[i].ref }

  ghost function IsSpace(namespace: Text, space: Text): SpaceRef -> bool { (ref: SpaceRef) => ref.namespace == namespace && ref.space == space }

  ghost function IsNamespace(namespace: Text): SpaceRef -> bool { (ref: SpaceRef) => ref.namespace == namespace }

  /** `usageFor`: the bytes of a namespace and of one of its spaces. */
  method UsageFor(items: seq<SpaceStats>, namespace: Text, space: Text, ghost content: map<Key, Entry>)
    returns (namespaceBytes: nat, spaceBytes: nat)
    requires StatsOf(content, items) && forall k :: k in content ==> content[k].key == k
    ensures namespaceBytes == Total(content, CostInNamespace(namespace))
    ensures spaceBytes == Total(content, CostIn(SpaceRef(namespace, space)))
  {
    hide Total;
    namespaceBytes, spaceBytes := 0, 0;
    ghost var inSpace, inNamespace := IsSpace(namespace, space), IsNamespace(namespace);
    SeenNone(content, inSpace);
    SeenNone(content, inNamespace);
    assert Refs(items[..0]) == {};
    for i := 0 to |items|
      invariant namespaceBytes == Total(content, CostAmong(Refs(items[..i]), inNamespace))
      invariant spaceBytes == Total(content, CostAmong(Refs(items[..i]), inSpace))
    {
      var item := items[i];
      NextRef(content, items, i);
      SeenOneMore(content, Refs(items[..i]), item.ref, inSpace);
      SeenOneMore(content, Refs(items[..i]), item.ref, inNamespace);
      if item.ref.namespace == namespace {
        namespaceBytes := namespaceBytes + item.usage.memoryBytes;
        if item.ref.space == space {
          spaceBytes := spaceBytes + item.usage.memoryBytes;
        }
      }
    }
    assert items[..|items|] == items;
    SeenAll(content, items, inNamespace, CostInNamespace(namespace));
    SeenAll(content, items, inSpace, CostIn(SpaceRef(namespace, space)));
  }

  lemma NextRef(content: map<Key, Entry>, items: seq<SpaceStats>, i: nat)
    requires StatsOf(content, items) && i < |items|
    ensures Refs(items[..i + 1]) == Refs(items[..i]) + {items[i].ref} && items[i].ref !in Refs(items[..i])
    ensures items[i].usage.memoryBytes == Total(content, CostIn(items[i].ref))
  {
    forall ref ensures ref in Refs(items[..i + 1]) <==> ref in Refs(items[..i]) + {items[i].ref} {
      if ref in Refs(items[..i]) {
        var j :| 0 <= j < i && items[..i][j].ref == ref;
        assert items[..i + 1][j].ref == ref;
      }
      if ref in Refs(items[..i + 1]) {
        var j :| 0 <= j < i + 1 && items[..i + 1][j].ref == ref;
        if j < i { assert items[..i][j].ref == ref; }
      }
      if ref == items[i].ref { assert items[..i + 1][i].ref == ref; }
    }
  }
}
