/** Quota admission in front of the engine (cache/quota.go, cache/service.go). */
module Quotas {
  import opened Common
  import opened Entries
  import opened EntryLaws
  import opened Accounting
  import opened Removal
  import opened Shards
  import opened FlatMap
  import opened SpaceStatistics
  import opened Engines

  /** Limits in bytes; zero means no limit. */
  datatype QuotaConfig = QuotaConfig(
    defaultNamespace: nat, defaultSpace: nat, namespaces: map<Text, nat>, spaces: map<SpaceRef, nat>)

  predicate HasLimits(q: QuotaConfig) {
    q.defaultNamespace > 0 || q.defaultSpace > 0 || |q.namespaces| > 0 || |q.spaces| > 0
  }

  function SpaceLimit(q: QuotaConfig, ref: SpaceRef): nat {
    if ref in q.spaces then q.spaces[ref] else q.defaultSpace
  }

  function NamespaceLimit(q: QuotaConfig, namespace: Text): nat {
    if namespace in q.namespaces then q.namespaces[namespace] else q.defaultNamespace
  }

  ghost function SpaceBytes(content: map<Key, Entry>, ref: SpaceRef): nat { Total(content, CostIn(ref)) }

  ghost function NamespaceBytes(content: map<Key, Entry>, namespace: Text): nat { Total(content, CostInNamespace(namespace)) }

  // ---------------------------------------------------------------- what evictions and writes do to usage

  /** Storing under one key changes a total by the difference of the two weights. */
  lemma PutTotal(m: map<Key, Entry>, k: Key, entry: Option<Entry>, w: Entry -> nat)
    ensures Total(Put(m, k, entry), w) + WeightOf(Lookup(m, k), w) == Total(m, w) + WeightOf(entry, w)
  {
    hide Total;
    if k in m {
      TotalRemove(m, k, w);
    } else {
      assert m - {k} == m;
    }
    if entry.Some? { TotalPut(m, k, entry.value, w); }
  }

  ghost function WeightOf(entry: Option<Entry>, w: Entry -> nat): nat { if entry.Some? then w(entry.value) else 0 }

  /** The bytes of one space after storing an entry under a key of it, or of another. */
  lemma PutSpace(m: map<Key, Entry>, k: Key, entry: Option<Entry>, ref: SpaceRef)
    requires (k in m ==> m[k].key == k) && (entry.Some? ==> entry.value.key == k)
    ensures ref == SpaceOf(k) ==> SpaceBytes(Put(m, k, entry), ref) + CostAt(Lookup(m, k)) == SpaceBytes(m, ref) + CostAt(entry)
    ensures ref != SpaceOf(k) ==> SpaceBytes(Put(m, k, entry), ref) == SpaceBytes(m, ref)
  {
    hide Total;
    PutTotal(m, k, entry, CostIn(ref));
  }

  lemma PutNamespace(m: map<Key, Entry>, k: Key, entry: Option<Entry>)
    requires (k in m ==> m[k].key == k) && (entry.Some? ==> entry.value.key == k)
    ensures NamespaceBytes(Put(m, k, entry), k.namespace) + CostAt(Lookup(m, k)) == NamespaceBytes(m, k.namespace) + CostAt(entry)
  {
    hide Total;
    PutTotal(m, k, entry, CostInNamespace(k.namespace));
  }

  /** A space in which only one key is left holds that key's bytes. */
  lemma OnlyKeyLeft(m: map<Key, Entry>, key: Key)
    requires forall k :: k in m ==> m[k].key == k
    requires forall k :: k in m && SpaceOf(k) == SpaceOf(key) ==> k == key
    ensures SpaceBytes(m, SpaceOf(key)) == CostAt(Lookup(m, key))
  {
    hide Sum;
    var ref := SpaceOf(key);
    var rest := m - {key};
    assert Total(rest, CostIn(ref)) == 0 by { SumZero(rest.Keys, Weigh(rest, CostIn(ref))); }
    hide Total;
    if key in m {
      TotalRemove(m, key, CostIn(ref));
    } else {
      assert rest == m;
    }
  }

  lemma EvictedNamespace(before: map<Key, Entry>, after: map<Key, Entry>, opts: EvictOptions, freed: nat, count: nat)
    requires Shrunk(before, after, opts, freed, count)
    ensures NamespaceBytes(before, opts.namespace) == NamespaceBytes(after, opts.namespace) + freed
  {
    var gone := ShrunkGone(before, after, opts, freed, count);
    hide Total, Sum, Candidate, Shrunk;
    TotalSplit(before, gone, Cost());
    TotalSplit(before, gone, CostInNamespace(opts.namespace));
    GoneFromNamespace(before, gone, opts);
  }

  lemma GoneFromNamespace(before: map<Key, Entry>, gone: set<Key>, opts: EvictOptions)
    requires forall k :: k in gone ==> k in before && Candidate(opts, before[k])
    ensures Sum(gone, Weigh(before, CostInNamespace(opts.namespace))) == Sum(gone, Weigh(before, Cost()))
  {
    hide Sum;
    SumCong(gone, Weigh(before, Cost()), Weigh(before, CostInNamespace(opts.namespace)));
  }

  /** Admission may only evict from the key's own space, and never the key itself. */
  ghost predicate OnlyEvicts(before: map<Key, Entry>, after: map<Key, Entry>, key: Key) {
    && (forall k :: k in after ==> after[k].key == k)
    && Lookup(after, key) == Lookup(before, key)
    && (forall k :: Lookup(after, k) != Lookup(before, k) ==> k !in after && SpaceOf(k) == SpaceOf(key))
    && (forall ref :: SpaceBytes(after, ref) <= SpaceBytes(before, ref))
  }

  lemma EvictionOnlyEvicts(before: map<Key, Entry>, after: map<Key, Entry>, opts: EvictOptions, key: Key, freed: nat, count: nat)
    requires Shrunk(before, after, opts, freed, count) && opts.exclude == Some(key)
    requires opts.namespace == key.namespace && opts.space == key.space
    requires (forall k :: k in before ==> before[k].key == k)
    ensures OnlyEvicts(before, after, key)
  {
    hide Total;
    forall ref ensures SpaceBytes(after, ref) <= SpaceBytes(before, ref) {
      EvictedSpaces(before, after, opts, freed, count, ref);
    }
  }

  lemma NothingEvicted(content: map<Key, Entry>, key: Key)
    requires forall k :: k in content ==> content[k].key == k
    ensures OnlyEvicts(content, content, key)
  {
  }

  // ---------------------------------------------------------------- the service

  datatype Verdict = Admitted | SpaceExceeded | NamespaceExceeded

  datatype Answer = Answered(reply: Reply) | QuotaExceeded(verdict: Verdict)

  predicate WillApply(current: Option<Entry>, expected: nat) {
    expected == 0 || (current.Some? && current.value.version == expected)
  }

  /** The record's own cost is over the limit of its space: the one reason the space check rejects. */
  predicate TooBig(q: QuotaConfig, key: Key, oldCost: nat, nextCost: nat) {
    var limit := SpaceLimit(q, SpaceOf(key));
    nextCost > oldCost && limit > 0 && nextCost > limit
  }

  /** No space is pushed over its limit: one that is over was over before and has not grown. */
  ghost predicate WithinLimits(q: QuotaConfig, before: map<Key, Entry>, after: map<Key, Entry>) {
    forall ref :: SpaceWithin(q, before, after, ref)
  }

  ghost predicate SpaceWithin(q: QuotaConfig, before: map<Key, Entry>, after: map<Key, Entry>, ref: SpaceRef) {
    SpaceLimit(q, ref) > 0 ==> SpaceBytes(after, ref) <= Max(SpaceLimit(q, ref), SpaceBytes(before, ref))
  }

  class EngineService {
    const engine: MemoryEngine
    const quota: QuotaConfig

    ghost predicate Valid()
      reads this, engine, engine.shards
    {
      engine.Valid()
    }

    ghost function Stored(): (content: map<Key, Entry>)
      requires Valid()
      reads this, engine, engine.shards
      ensures forall k :: k in content ==> content[k].key == k
    {
      engine.Stored()
    }

    constructor (engine: MemoryEngine, quota: QuotaConfig)
      requires engine.Valid()
      ensures this.engine == engine && this.quota == quota && Valid()
    {
      this.engine, this.quota := engine, quota;
    }

    /** Space check: evicts from the key's space when the growth does not fit. */
    method EnsureSpaceQuota(key: Key, namespaceUsage: nat, spaceUsage: nat, delta: nat, ghost oldCost: nat, now: int)
      returns (namespaceLeft: nat, ok: bool)
      requires Valid() && ValidKey(key) && delta > 0
      requires spaceUsage == SpaceBytes(Stored(), SpaceOf(key)) && namespaceUsage == NamespaceBytes(Stored(), key.namespace)
      requires oldCost == CostAt(Lookup(Stored(), key))
      modifies engine.shards
      ensures Valid() && OnlyEvicts(old(Stored()), Stored(), key)
      ensures ok ==> namespaceLeft == NamespaceBytes(Stored(), key.namespace)
      ensures ok && SpaceLimit(quota, SpaceOf(key)) > 0 ==> SpaceBytes(Stored(), SpaceOf(key)) + delta <= SpaceLimit(quota, SpaceOf(key))
      ensures ok <==> !TooBig(quota, key, oldCost, oldCost + delta)
    {
      hide Total, Placed, Content, OnlyEvicts, EvictedByShard;
      var limit := SpaceLimit(quota, SpaceOf(key));
      ghost var before := Stored();
      OwnCost(before, key);
      if limit == 0 || spaceUsage + delta <= limit {
        NothingEvicted(before, key);
        return namespaceUsage, true;
      }
      var opts := EvictOptions(key.namespace, key.space, spaceUsage + delta - limit, Some(key), now);
      var freed, count, evicted, shares := engine.Evict(opts);
      EvictionOnlyEvicts(before, Stored(), opts, key, freed, count);
      EvictedSpaces(before, Stored(), opts, freed, count, SpaceOf(key));
      EvictedNamespace(before, Stored(), opts, freed, count);
      var spaceLeft := spaceUsage - Min(spaceUsage, freed);
      namespaceLeft := namespaceUsage - Min(namespaceUsage, freed);
      KeyKept(before, Stored(), key);
      if freed < opts.targetBytes {
        OnlyKeyLeft(Stored(), key);
      } else {
        OwnCost(Stored(), key);
      }
      ok := spaceLeft + delta <= limit;
    }

    method AdmitCostGrowth(key: Key, oldCost: nat, nextCost: nat, now: int) returns (verdict: Verdict)
      requires Valid() && ValidKey(key) && oldCost == CostAt(Lookup(Stored(), key))
      modifies engine.shards
      ensures Valid() && OnlyEvicts(old(Stored()), Stored(), key)
      ensures verdict == SpaceExceeded <==> TooBig(quota, key, oldCost, nextCost)
      ensures verdict == Admitted && nextCost > oldCost ==> Fits(quota, Stored(), key, nextCost - oldCost)
      ensures verdict == NamespaceExceeded ==>
                nextCost > oldCost && 0 < NamespaceLimit(quota, key.namespace) < NamespaceBytes(Stored(), key.namespace) + (nextCost - oldCost)
    {
      hide Total, OnlyEvicts, Placed, Content;
      NothingEvicted(Stored(), key);
      if nextCost <= oldCost {
        return Admitted;
      }
      var delta := nextCost - oldCost;
      var objects, bytes, items := engine.Stats();
      var namespaceUsage, spaceUsage := UsageFor(items, key.namespace, key.space, Stored());
      var namespaceLeft, ok := EnsureSpaceQuota(key, namespaceUsage, spaceUsage, delta, oldCost, now);
      if !ok {
        return SpaceExceeded;
      }
      var limit := NamespaceLimit(quota, key.namespace);
      if limit > 0 && namespaceLeft + delta > limit {
        return NamespaceExceeded;
      }
      verdict := Admitted;
    }

    /** A Set under quota; reading, evicting and writing may each see another time. The space check rejects it exactly when it would apply, would grow the
        record and the record alone is over the limit; an applied Set that grows leaves the space
        and the namespace within their limits; and only entries of the same space make way. */
    method Set(key: Key, value: Text, opts: WriteOptions, readAt: int, evictAt: int, writeAt: int) returns (answer: Answer)
      requires Valid()
      modifies engine.shards
      ensures Valid() && WithinLimits(quota, old(Stored()), Stored())
      ensures !ValidKey(key) ==> answer == Answered(Failed(InvalidKey)) && Stored() == old(Stored())
      ensures ValidKey(key) ==> SetAdmission(quota, old(Stored()), Stored(), key, value, opts, readAt, writeAt, answer)
    {
      hide Total, OnlyEvicts, Placed, Content, WithinLimits, SetAdmission, SetOutcome, GetOutcome, ValidKey, CostOf;
      ghost var before := Stored();
      NothingEvicted(before, key);
      if !ValidKey(key) {
        answer := Answered(Failed(InvalidKey));
        Unchanged(quota, before);
        return;
      }
      ghost var live := Current(quota, Lookup(before, key), readAt);
      if HasLimits(quota) {
        var current := engine.Execute(key, Get(GetOptions(0, 0)), readAt);
        ghost var fetched := Stored();
        CurrentRecord(before, fetched, key, readAt, current);
        NothingEvicted(fetched, key);
        var version := if current.Hit? then current.record.version else 0;
        var oldCost := if current.Hit? then current.record.costBytes else 0;
        if opts.expectedVersion == 0 || (current.Hit? && version == opts.expectedVersion) {
          var verdict := AdmitCostGrowth(key, oldCost, CostOf(key, value), evictAt);
          if verdict != Admitted {
            answer := QuotaExceeded(verdict);
            RejectedSet(quota, before, fetched, Stored(), key, value, opts, readAt, writeAt, verdict, live);
            return;
          }
        }
        ghost var admitted := Stored();
        var reply := engine.Execute(key, Command.Set(value, opts), writeAt);
        answer := Answered(reply);
        KeyKept(fetched, admitted, key);
        AppliedSet(quota, before, fetched, admitted, key, value, opts, readAt, writeAt, live);
      } else {
        NoLimits(quota, key);
        PutBack(before, key, live);
        var reply := engine.Execute(key, Command.Set(value, opts), writeAt);
        answer := Answered(reply);
        AppliedSet(quota, before, before, before, key, value, opts, readAt, writeAt, live);
      }
    }

    /** An Adjust or a collection write under quota, admitted by its estimate. No space is pushed
        over its limit, unless an expired counter is adjusted, whose estimate drops the entry and
        reports nothing to admit: then exactly when the new counter does not fit in its place. */
    method Write(key: Key, c: Command, order: nat, now: int) returns (answer: Answer)
      requires Valid() && LawfulCodec(engine.codec) && IsWrite(c)
      modifies engine.shards
      ensures Valid()
      ensures !ValidKey(key) ==> answer == Answered(Failed(InvalidKey)) && Stored() == old(Stored())
      ensures ValidKey(key) ==>
                (WithinLimits(quota, old(Stored()), Stored())
                 <==> (LapsedCounter(Lookup(old(Stored()), key), c, now) ==> LapsedFits(quota, engine.codec, old(Stored()), key, c)))
      ensures ValidKey(key) ==> WriteAdmission(quota, engine.codec, old(Stored()), Stored(), key, c, order, now, answer)
    {
      hide Total, OnlyEvicts, Placed, Content, WithinLimits, Apply, ValidKey, LawfulCodec, WriteAdmission, SpaceLimit, NamespaceLimit;
      ghost var before := Stored();
      Unchanged(quota, before);
      if !ValidKey(key) {
        answer := Answered(Failed(InvalidKey));
        return;
      }
      StoredFor(engine.hash, engine.EntryMaps());
      if HasLimits(quota) {
        if LapsedCounter(Lookup(before, key), c, now) {
          LapsedCounterExact(quota, engine.codec, before, key, c, order, now);
        }
        answer := WriteUnderQuota(key, c, order, now);
        return;
      }
      ghost var was := Lookup(before, key);
      NothingEvicted(before, key);
      NoLimits(quota, key);
      PutBack(before, key, was);
      ApplyKeepsFiling(engine.codec, key, was, c, now);
      var reply := engine.Execute(key, c, now);
      answer := Answered(reply);
      Unlimited(quota, before, Stored());
      WrittenAs(quota, engine.codec, before, before, before, key, c, order, now, was);
    }

    /** Estimate, admit, write. */
    method WriteUnderQuota(key: Key, c: Command, order: nat, now: int) returns (answer: Answer)
      requires Valid() && LawfulCodec(engine.codec) && IsWrite(c) && ValidKey(key) && HasLimits(quota)
      modifies engine.shards
      ensures Valid()
      ensures !LapsedCounter(Lookup(old(Stored()), key), c, now) ==> WithinLimits(quota, old(Stored()), Stored())
      ensures LapsedCounter(Lookup(old(Stored()), key), c, now) ==>
                Stored() == Put(old(Stored()), key, Apply(engine.codec, key, None, c, now).entry)
      ensures WriteAdmission(quota, engine.codec, old(Stored()), Stored(), key, c, order, now, answer)
    {
      hide Total, OnlyEvicts, Placed, Content, WithinLimits, Apply, ValidKey, LawfulCodec, WriteAdmission, Fits, TooBig, LapsedCounter;
      hide SpaceLimit, NamespaceLimit, EntryFor, EstimateFor, HasLimits, CostAt, Put;
      ghost var before := Stored();
      StoredFor(engine.hash, engine.EntryMaps());
      ghost var was := Lookup(before, key);
      hide Lookup;
      ghost var live := Apply(engine.codec, key, was, EstimateFor(c, order), now).entry;
      WriteMeasured(engine.codec, key, was, c, now, order);
      LiveKey(key, live);
      LapsedEstimate(engine.codec, key, was, c, order, now);
      var estimate := engine.Execute(key, EstimateFor(c, order), now);
      ghost var measured := Stored();
      LookupPut(before, key, live);
      PutTwice(before, key, live, Apply(engine.codec, key, live, c, now).entry);
      NothingEvicted(measured, key);
      if estimate.Failed? {
        answer := Answered(estimate);
        DroppedWithin(quota, before, measured, measured, key, live);
        RefusedWrite(quota, engine.codec, before, measured, measured, key, c, order, now, answer);
        return;
      }
      if estimate.applied {
        var verdict := AdmitCostGrowth(key, estimate.oldCost, estimate.newCost, now);
        if verdict != Admitted {
          answer := QuotaExceeded(verdict);
          DroppedWithin(quota, before, measured, Stored(), key, live);
          RefusedWrite(quota, engine.codec, before, measured, Stored(), key, c, order, now, answer);
          return;
        }
      }
      ghost var admitted := Stored();
      KeyKept(measured, admitted, key);
      FinishedWrite(quota, engine.codec, before, measured, admitted, key, c, order, now);
      var reply := engine.Execute(key, c, now);
      answer := Answered(reply);
    }

    /** The commands that never need admission. */
    method Pass(key: Key, c: Command, now: int) returns (reply: Reply)
      requires Valid() && (c.Get? || c.Touch? || c.Delete?)
      modifies engine.shards
      ensures Valid() && WithinLimits(quota, old(Stored()), Stored())
      ensures !ValidKey(key) ==> reply == Failed(InvalidKey) && Stored() == old(Stored())
      ensures ValidKey(key) ==>
                var out := Apply(engine.codec, key, Lookup(old(Stored()), key), c, now);
                Stored() == Put(old(Stored()), key, out.entry) && reply == out.reply
    {
      hide Total, Placed, Content, WithinLimits, Apply, ValidKey;
      ghost var before := Stored();
      reply := engine.Execute(key, c, now);
      Unchanged(quota, before);
      if ValidKey(key) {
        PassShrinks(engine.codec, key, Lookup(before, key), c, now);
        PutWithin(quota, before, key, Apply(engine.codec, key, Lookup(before, key), c, now).entry);
      }
    }

    method Sweep(now: int) returns (swept: nat)
      requires Valid()
      modifies engine.shards
      ensures Valid() && WithinLimits(quota, old(Stored()), Stored())
      ensures Stored() == Rejected(old(Stored()), ExpiredAt(now)) && swept == |Selected(old(Stored()), ExpiredAt(now))|
    {
      hide Total, Placed, Content, WithinLimits;
      ghost var before := Stored();
      swept := engine.SweepExpired(now);
      SubmapWithin(quota, before, Stored());
    }

    method Evict(namespace: Text, space: Text, targetBytes: nat, exclude: Key, now: int) returns (freed: nat, count: nat, ok: bool)
      requires Valid()
      modifies engine.shards
      ensures Valid() && WithinLimits(quota, old(Stored()), Stored())
      ensures ok <==> targetBytes == 0 || (namespace != [] && space != [])
      ensures !ok || targetBytes == 0 ==> freed == 0 && count == 0 && Stored() == old(Stored())
      ensures ok ==> EvictedFrom(old(Stored()), Stored(), EvictRequest(namespace, space, targetBytes, exclude, now), freed, count)
    {
      hide Total, Placed, Content, WithinLimits, EvictedByShard;
      ghost var before := Stored();
      Unchanged(quota, before);
      var gone, objects, done, shares := engine.Evict(EvictRequest(namespace, space, targetBytes, exclude, now));
      freed, count, ok := gone, objects, done;
      if ok {
        SubmapWithin(quota, before, Stored());
      }
    }

    /** Any run of Set, Get, Touch, Delete, Sweep and Evict: a space under its limit stays under it. */
    method Serve(requests: seq<Request>)
      requires Valid()
      modifies engine.shards
      ensures Valid() && WithinLimits(quota, old(Stored()), Stored())
    {
      hide Total, Placed, Content, WithinLimits, SetAdmission;
      Unchanged(quota, Stored());
      for i := 0 to |requests|
        invariant Valid() && WithinLimits(quota, old(Stored()), Stored())
      {
        ghost var before := Stored();
        match requests[i] {
          case PutRecord(key, value, opts, readAt, evictAt, writeAt) => var answer := Set(key, value, opts, readAt, evictAt, writeAt);
          case Lookups(key, opts, now) => var reply := Pass(key, Get(opts), now);
          case Touching(key, opts, now) => var reply := Pass(key, Touch(opts), now);
          case Deleting(key, expected, now) => var reply := Pass(key, Delete(expected), now);
          case Sweeping(now) => var swept := Sweep(now);
          case Evicting(namespace, space, target, exclude, now) =>
            var freed, count, ok := Evict(namespace, space, target, exclude, now);
        }
        WithinTrans(quota, old(Stored()), before, Stored());
      }
    }
  }

  /** One key's bytes are part of its space's. */
  lemma OwnCost(content: map<Key, Entry>, key: Key)
    requires forall k :: k in content ==> content[k].key == k
    ensures CostAt(Lookup(content, key)) <= SpaceBytes(content, SpaceOf(key))
  {
    hide Total;
    if key in content { TotalRemove(content, key, CostIn(SpaceOf(key))); }
  }

  lemma KeyKept(before: map<Key, Entry>, after: map<Key, Entry>, key: Key)
    requires OnlyEvicts(before, after, key)
    ensures Lookup(after, key) == Lookup(before, key)
    ensures forall k :: k in after ==> after[k].key == k
  {
  }

  /** An eviction that spares one key, unless its name is empty. */
  function EvictRequest(namespace: Text, space: Text, targetBytes: nat, exclude: Key, now: int): EvictOptions {
    EvictOptions(namespace, space, targetBytes, if exclude.key != [] then Some(exclude) else None, now)
  }

  datatype Request =
    | PutRecord(key: Key, value: Text, options: WriteOptions, readAt: int, evictAt: int, writeAt: int)
    | Lookups(key: Key, lookup: GetOptions, now: int)
    | Touching(key: Key, options: WriteOptions, now: int)
    | Deleting(key: Key, expectedVersion: nat, now: int)
    | Sweeping(now: int)
    | Evicting(namespace: Text, space: Text, targetBytes: nat, exclude: Key, now: int)

  /** The entry admission sees: reading it drops it when it has expired. */
  function Current(q: QuotaConfig, was: Option<Entry>, now: int): Option<Entry> {
    if HasLimits(q) then GetOutcome(was, GetOptions(0, 0), now).entry else was
  }

  /** What a Set under quota promises. */
  ghost predicate SetAdmission(q: QuotaConfig, before: map<Key, Entry>, after: map<Key, Entry>, key: Key, value: Text, opts: WriteOptions,
                               readAt: int, writeAt: int, answer: Answer) {
    var live := Current(q, Lookup(before, key), readAt);
    var out := SetOutcome(live, key, value, opts, writeAt);
    var grows := WillApply(live, opts.expectedVersion) && CostOf(key, value) > CostAt(live);
    var limit, namespaceLimit := SpaceLimit(q, SpaceOf(key)), NamespaceLimit(q, key.namespace);
    && (answer == QuotaExceeded(SpaceExceeded) <==> grows && 0 < limit < CostOf(key, value))
    && (answer == QuotaExceeded(NamespaceExceeded) ==>
          grows && 0 < namespaceLimit < NamespaceBytes(after, key.namespace) + (CostOf(key, value) - CostAt(live)))
    && answer != QuotaExceeded(Admitted)
    && (answer.Answered? ==> answer.reply == out.reply && Lookup(after, key) == out.entry)
    && (answer.QuotaExceeded? ==> Lookup(after, key) == live)
    && (answer.Answered? && grows && limit > 0 ==> SpaceBytes(after, SpaceOf(key)) <= limit)
    && (answer.Answered? && grows && namespaceLimit > 0 ==> NamespaceBytes(after, key.namespace) <= namespaceLimit)
    && (forall k :: k != key && Lookup(after, k) != Lookup(before, k) ==> k !in after && SpaceOf(k) == SpaceOf(key))
  }

  /** What an estimated write under quota promises. */
  ghost predicate WriteAdmission(q: QuotaConfig, codec: Codec, before: map<Key, Entry>, after: map<Key, Entry>, key: Key, c: Command,
                                 order: nat, now: int, answer: Answer)
    requires IsWrite(c)
  {
    var was := Lookup(before, key);
    var estimate := Apply(codec, key, was, EstimateFor(c, order), now);
    var live := if HasLimits(q) then estimate.entry else was;
    var out := Apply(codec, key, live, c, now);
    var e := estimate.reply;
    var measured := HasLimits(q) && e.Estimate? && e.applied;
    var limit, namespaceLimit := SpaceLimit(q, SpaceOf(key)), NamespaceLimit(q, key.namespace);
    && (answer == QuotaExceeded(SpaceExceeded) <==> measured && TooBig(q, key, e.oldCost, e.newCost))
    && (answer == QuotaExceeded(NamespaceExceeded) ==>
          measured && e.newCost > e.oldCost && 0 < namespaceLimit < NamespaceBytes(after, key.namespace) + (e.newCost - e.oldCost))
    && answer != QuotaExceeded(Admitted)
    && (answer.QuotaExceeded? ==> Lookup(after, key) == live)
    && (answer.Answered? ==>
          if HasLimits(q) && e.Failed? then answer.reply == e && Lookup(after, key) == live
          else answer.reply == out.reply && Lookup(after, key) == out.entry)
    && (answer.Answered? && !LapsedCounter(was, c, now) && CostAt(Lookup(after, key)) > CostAt(live) ==>
          && (limit > 0 ==> SpaceBytes(after, SpaceOf(key)) <= limit)
          && (namespaceLimit > 0 ==> NamespaceBytes(after, key.namespace) <= namespaceLimit))
    && (forall k :: k != key && Lookup(after, k) != Lookup(before, k) ==> k !in after && SpaceOf(k) == SpaceOf(key))
  }

  lemma LiveKey(key: Key, entry: Option<Entry>)
    requires entry.Some? ==> EntryFor(key, entry.value)
    ensures entry.Some? ==> entry.value.key == key
  {
  }

  /** What was admitted for the estimate has room for the write. */
  lemma RoomForWrite(q: QuotaConfig, admitted: map<Key, Entry>, key: Key, e: Reply, live: Option<Entry>, after: Option<Entry>)
    requires e.Estimate?
    requires e.applied && e.newCost > e.oldCost ==> Fits(q, admitted, key, e.newCost - e.oldCost)
    requires if e.applied then CostAt(after) <= CostAt(live) || CostAt(after) - CostAt(live) <= e.newCost - e.oldCost else after == live
    ensures CostAt(after) > CostAt(live) && SpaceLimit(q, SpaceOf(key)) > 0 ==>
              SpaceBytes(admitted, SpaceOf(key)) + (CostAt(after) - CostAt(live)) <= SpaceLimit(q, SpaceOf(key))
  {
  }

  /** A write whose estimate was admitted, or needed no admission. */
  lemma FinishedWrite(q: QuotaConfig, codec: Codec, before: map<Key, Entry>, measured: map<Key, Entry>, admitted: map<Key, Entry>, key: Key,
                      c: Command, order: nat, now: int)
    requires LawfulCodec(codec) && IsWrite(c) && ValidKey(key) && HasLimits(q)
    requires forall k :: k in before ==> EntryFor(k, before[k])
    requires
      var e := Apply(codec, key, Lookup(before, key), EstimateFor(c, order), now);
      && measured == Put(before, key, e.entry) && OnlyEvicts(measured, admitted, key) && e.reply.Estimate?
      && (e.reply.applied && e.reply.newCost > e.reply.oldCost ==>
            && !TooBig(q, key, e.reply.oldCost, e.reply.newCost)
            && Fits(q, admitted, key, e.reply.newCost - e.reply.oldCost))
    ensures
      var live := Apply(codec, key, Lookup(before, key), EstimateFor(c, order), now).entry;
      var out := Apply(codec, key, live, c, now);
      var after := Put(admitted, key, out.entry);
      && WriteAdmission(q, codec, before, after, key, c, order, now, Answered(out.reply))
      && (!LapsedCounter(Lookup(before, key), c, now) ==> WithinLimits(q, before, after))
  {
    assert forall k :: k in before ==> before[k].key == k;
    assert Lookup(before, key).Some? ==> EntryFor(key, Lookup(before, key).value);
    hide LawfulCodec, Apply, ValidKey, OnlyEvicts, TooBig, Fits, WriteAdmission, WithinLimits, LapsedCounter, EstimateFor, HasLimits, EntryFor, Put, Lookup;
    hide CostAt, SpaceLimit, SpaceBytes, NamespaceBytes;
    var was := Lookup(before, key);
    var e := Apply(codec, key, was, EstimateFor(c, order), now);
    var live := e.entry;
    WriteMeasured(codec, key, was, c, now, order);
    ApplyKeepsFiling(codec, key, live, c, now);
    var after := Apply(codec, key, live, c, now).entry;
    LiveKey(key, live);
    LiveKey(key, after);
    WrittenAs(q, codec, before, measured, admitted, key, c, order, now, live);
    if !LapsedCounter(was, c, now) {
      RoomForWrite(q, admitted, key, e.reply, live, after);
      WriteWithin(q, before, measured, admitted, key, live, after);
    }
  }

  lemma RefusedWrite(q: QuotaConfig, codec: Codec, before: map<Key, Entry>, measured: map<Key, Entry>, after: map<Key, Entry>, key: Key, c: Command,
                     order: nat, now: int, answer: Answer)
    requires IsWrite(c) && HasLimits(q) && OnlyEvicts(measured, after, key)
    requires
      var estimate := Apply(codec, key, Lookup(before, key), EstimateFor(c, order), now);
      var e := estimate.reply;
      && measured == Put(before, key, estimate.entry)
      && (e.Estimate? || e.Failed?)
      && (answer.Answered? ==> e.Failed? && answer.reply == e && after == measured)
      && (answer.QuotaExceeded? ==>
            && answer.verdict != Admitted && e.Estimate? && e.applied
            && (answer.verdict == SpaceExceeded <==> TooBig(q, key, e.oldCost, e.newCost))
            && (answer.verdict == NamespaceExceeded ==>
                  e.newCost > e.oldCost && 0 < NamespaceLimit(q, key.namespace) < NamespaceBytes(after, key.namespace) + (e.newCost - e.oldCost)))
    ensures WriteAdmission(q, codec, before, after, key, c, order, now, answer)
  {
    hide Apply, OnlyEvicts, SpaceBytes, NamespaceBytes, SpaceLimit, NamespaceLimit, TooBig;
    var live := Apply(codec, key, Lookup(before, key), EstimateFor(c, order), now).entry;
    KeyKept(measured, after, key);
    LookupPut(before, key, live);
    PutBack(after, key, live);
    OthersKept(before, measured, after, key, live, live);
  }

  lemma WrittenAs(q: QuotaConfig, codec: Codec, before: map<Key, Entry>, measured: map<Key, Entry>, admitted: map<Key, Entry>, key: Key, c: Command,
                  order: nat, now: int, live: Option<Entry>)
    requires IsWrite(c) && OnlyEvicts(measured, admitted, key) && measured == Put(before, key, live)
    requires forall k :: k in before ==> before[k].key == k
    requires (live.Some? ==> live.value.key == key)
    requires
      var e := Apply(codec, key, Lookup(before, key), EstimateFor(c, order), now);
      var out := Apply(codec, key, live, c, now);
      && (out.entry.Some? ==> out.entry.value.key == key)
      && (if HasLimits(q) then
            && live == e.entry && e.reply.Estimate?
            && (e.reply.applied && e.reply.newCost > e.reply.oldCost ==>
                  && !TooBig(q, key, e.reply.oldCost, e.reply.newCost)
                  && Fits(q, admitted, key, e.reply.newCost - e.reply.oldCost))
            && (!LapsedCounter(Lookup(before, key), c, now) ==>
                  if e.reply.applied then CostAt(out.entry) <= CostAt(live) || CostAt(out.entry) - CostAt(live) <= e.reply.newCost - e.reply.oldCost
                  else out.entry == live)
          else live == Lookup(before, key) && SpaceLimit(q, SpaceOf(key)) == 0 && NamespaceLimit(q, key.namespace) == 0)
    ensures
      var out := Apply(codec, key, live, c, now);
      WriteAdmission(q, codec, before, Put(admitted, key, out.entry), key, c, order, now, Answered(out.reply))
  {
    hide Apply, OnlyEvicts, SpaceBytes, NamespaceBytes, SpaceLimit, NamespaceLimit, LapsedCounter, Fits, EstimateFor, HasLimits, Put;
    var out := Apply(codec, key, live, c, now);
    var e := Apply(codec, key, Lookup(before, key), EstimateFor(c, order), now).reply;
    KeyKept(measured, admitted, key);
    LookupPut(before, key, live);
    OthersKept(before, measured, admitted, key, live, out.entry);
    if HasLimits(q) && !LapsedCounter(Lookup(before, key), c, now) && CostAt(out.entry) > CostAt(live) {
      GrownFits(q, admitted, key, e.newCost - e.oldCost, live, out.entry);
    }
  }

  /** A write that grows no more than there is room for ends within both limits. */
  lemma GrownFits(q: QuotaConfig, admitted: map<Key, Entry>, key: Key, delta: nat, live: Option<Entry>, entry: Option<Entry>)
    requires Fits(q, admitted, key, delta) && CostAt(live) < CostAt(entry) <= CostAt(live) + delta && Lookup(admitted, key) == live
    requires (forall k :: k in admitted ==> admitted[k].key == k) && (entry.Some? ==> entry.value.key == key)
    ensures
      var after := Put(admitted, key, entry);
      && (SpaceLimit(q, SpaceOf(key)) > 0 ==> SpaceBytes(after, SpaceOf(key)) <= SpaceLimit(q, SpaceOf(key)))
      && (NamespaceLimit(q, key.namespace) > 0 ==> NamespaceBytes(after, key.namespace) <= NamespaceLimit(q, key.namespace))
  {
    hide SpaceBytes, NamespaceBytes, SpaceLimit, NamespaceLimit;
    PutSpace(admitted, key, entry, SpaceOf(key));
    PutNamespace(admitted, key, entry);
  }

  /** An expired counter about to be adjusted without naming a version: the estimate drops it, so
      the write that follows starts a new one. */
  predicate LapsedCounter(was: Option<Entry>, c: Command, now: int) {
    && c.Adjust? && was.Some? && Expired(was.value, now)
    && c.adjust.options.expectedVersion == 0 && SafeAdd(c.adjust.initialValue, c.adjust.delta).Some?
  }

  /** The new counter fits in the place of the expired one, or no limit asks it to. */
  ghost predicate LapsedFits(q: QuotaConfig, codec: Codec, before: map<Key, Entry>, key: Key, c: Command) {
    c.Adjust? && key in before && SafeAdd(c.adjust.initialValue, c.adjust.delta).Some? &&
    var was := before[key].costBytes;
    var cost := CostOf(key, codec.format(SafeAdd(c.adjust.initialValue, c.adjust.delta).value));
    var limit := SpaceLimit(q, SpaceOf(key));
    limit == 0 || cost <= was || SpaceBytes(before, SpaceOf(key)) - was + cost <= limit
  }

  lemma LapsedEstimate(codec: Codec, key: Key, was: Option<Entry>, c: Command, order: nat, now: int)
    requires IsWrite(c)
    ensures LapsedCounter(was, c, now) ==> Apply(codec, key, was, EstimateFor(c, order), now) == Outcome(None, NOT_APPLIED)
  {
  }

  /** Adjusting an expired counter asks for no admission, and stays within the limits if and only
      if the new counter fits in the place of the old one. */
  lemma LapsedCounterExact(q: QuotaConfig, codec: Codec, before: map<Key, Entry>, key: Key, c: Command, order: nat, now: int)
    requires IsWrite(c) && LapsedCounter(Lookup(before, key), c, now) && forall k :: k in before ==> EntryFor(k, before[k])
    ensures Apply(codec, key, Lookup(before, key), EstimateFor(c, order), now) == Outcome(None, NOT_APPLIED)
    ensures WithinLimits(q, before, Put(before, key, Apply(codec, key, None, c, now).entry)) <==> LapsedFits(q, codec, before, key, c)
  {
    LapsedEstimate(codec, key, Lookup(before, key), c, order, now);
    var entry := Apply(codec, key, None, c, now).entry;
    assert entry.Some? && entry.value.key == key
        && CostAt(entry) == CostOf(key, codec.format(SafeAdd(c.adjust.initialValue, c.adjust.delta).value));
    hide Apply, Total, SpaceLimit, CostOf, LapsedCounter, SpaceBytes;
    var after := Put(before, key, entry);
    assert key in before && before[key].key == key;
    forall ref | ref != SpaceOf(key) ensures SpaceWithin(q, before, after, ref) { PutSpace(before, key, entry, ref); }
    PutSpace(before, key, entry, SpaceOf(key));
    OwnCost(before, key);
    assert WithinLimits(q, before, after) <==> SpaceWithin(q, before, after, SpaceOf(key));
  }

  lemma PutTwice(m: map<Key, Entry>, key: Key, first: Option<Entry>, second: Option<Entry>)
    ensures Put(Put(m, key, first), key, second) == Put(m, key, second)
  {
  }

  lemma Unchanged(q: QuotaConfig, content: map<Key, Entry>)
    ensures WithinLimits(q, content, content)
  {
  }

  lemma WithinTrans(q: QuotaConfig, a: map<Key, Entry>, b: map<Key, Entry>, c: map<Key, Entry>)
    requires WithinLimits(q, a, b) && WithinLimits(q, b, c)
    ensures WithinLimits(q, a, c)
  {
    hide SpaceBytes, SpaceLimit;
    forall ref ensures SpaceWithin(q, a, c, ref) {
      assert SpaceWithin(q, a, b, ref) && SpaceWithin(q, b, c, ref);
    }
  }

  lemma LookupPut(m: map<Key, Entry>, key: Key, entry: Option<Entry>)
    ensures Lookup(Put(m, key, entry), key) == entry
    ensures forall k :: k != key ==> Lookup(Put(m, key, entry), k) == Lookup(m, k)
  {
  }

  lemma NoLimits(q: QuotaConfig, key: Key)
    requires !HasLimits(q)
    ensures forall ref :: SpaceLimit(q, ref) == 0
    ensures NamespaceLimit(q, key.namespace) == 0
  {
  }

  lemma Unlimited(q: QuotaConfig, before: map<Key, Entry>, after: map<Key, Entry>)
    requires forall ref :: SpaceLimit(q, ref) == 0
    ensures WithinLimits(q, before, after)
  {
  }

  lemma SubmapWithin(q: QuotaConfig, before: map<Key, Entry>, after: map<Key, Entry>)
    requires Submap(after, before)
    ensures WithinLimits(q, before, after)
  {
    var gone := before.Keys - after.Keys;
    assert before - gone == after;
    hide Total;
    forall ref ensures SpaceWithin(q, before, after, ref) {
      TotalSplit(before, gone, CostIn(ref));
    }
  }

  lemma PutWithin(q: QuotaConfig, before: map<Key, Entry>, key: Key, entry: Option<Entry>)
    requires forall k :: k in before ==> before[k].key == k
    requires entry.Some? ==> entry.value.key == key
    requires CostAt(entry) <= CostAt(Lookup(before, key))
    ensures WithinLimits(q, before, Put(before, key, entry))
  {
    hide SpaceBytes, SpaceLimit;
    var after := Put(before, key, entry);
    forall ref ensures SpaceWithin(q, before, after, ref) { PutSpace(before, key, entry, ref); }
  }

  /** Dropping an expired entry and evicting keep every space within its limit. */
  lemma DroppedWithin(q: QuotaConfig, before: map<Key, Entry>, dropped: map<Key, Entry>, after: map<Key, Entry>, key: Key, live: Option<Entry>)
    requires forall k :: k in before ==> before[k].key == k
    requires (live.Some? ==> live.value.key == key) && CostAt(live) <= CostAt(Lookup(before, key))
    requires dropped == Put(before, key, live) && OnlyEvicts(dropped, after, key)
    ensures WithinLimits(q, before, after)
  {
    hide SpaceLimit, Total;
    forall ref ensures SpaceWithin(q, before, after, ref) {
      PutSpace(before, key, live, ref);
      assert SpaceBytes(after, ref) <= SpaceBytes(dropped, ref);
    }
  }

  /** An admitted write keeps every space within its limit. */
  lemma WriteWithin(q: QuotaConfig, before: map<Key, Entry>, dropped: map<Key, Entry>, admitted: map<Key, Entry>, key: Key,
                    live: Option<Entry>, entry: Option<Entry>)
    requires forall k :: k in before ==> before[k].key == k
    requires (live.Some? ==> live.value.key == key) && (entry.Some? ==> entry.value.key == key)
    requires CostAt(live) <= CostAt(Lookup(before, key))
    requires dropped == Put(before, key, live) && OnlyEvicts(dropped, admitted, key)
    requires CostAt(entry) > CostAt(live) && SpaceLimit(q, SpaceOf(key)) > 0 ==>
               SpaceBytes(admitted, SpaceOf(key)) + (CostAt(entry) - CostAt(live)) <= SpaceLimit(q, SpaceOf(key))
    ensures WithinLimits(q, before, Put(admitted, key, entry))
    ensures SpaceBytes(Put(admitted, key, entry), SpaceOf(key)) + CostAt(live) == SpaceBytes(admitted, SpaceOf(key)) + CostAt(entry)
    ensures NamespaceBytes(Put(admitted, key, entry), key.namespace) + CostAt(live) == NamespaceBytes(admitted, key.namespace) + CostAt(entry)
  {
    hide SpaceLimit, Total;
    var after := Put(admitted, key, entry);
    LookupPut(before, key, live);
    forall ref ensures SpaceWithin(q, before, after, ref) {
      PutSpace(before, key, live, ref);
      assert SpaceBytes(admitted, ref) <= SpaceBytes(dropped, ref);
      PutSpace(admitted, key, entry, ref);
    }
    PutSpace(admitted, key, entry, SpaceOf(key));
    PutNamespace(admitted, key, entry);
  }

  lemma CurrentRecord(before: map<Key, Entry>, fetched: map<Key, Entry>, key: Key, now: int, reply: Reply)
    requires forall k :: k in before ==> before[k].key == k
    requires
      var out := GetOutcome(Lookup(before, key), GetOptions(0, 0), now);
      fetched == Put(before, key, out.entry) && reply == out.reply
    ensures
      var live := Lookup(fetched, key);
      && live == GetOutcome(Lookup(before, key), GetOptions(0, 0), now).entry
      && (reply.Hit? <==> live.Some?) && (reply.Hit? ==> reply.record == live.value)
      && (live.Some? ==> live.value.key == key) && CostAt(live) <= CostAt(Lookup(before, key))
  {
  }

  /** Reading the record for admission: what is left under the key, and nothing else touched. */
  ghost predicate Fetched(q: QuotaConfig, before: map<Key, Entry>, fetched: map<Key, Entry>, key: Key, now: int, live: Option<Entry>) {
    && (forall k :: k in before ==> before[k].key == k)
    && live == Current(q, Lookup(before, key), now) && fetched == Put(before, key, live)
    && (live.Some? ==> live.value.key == key) && CostAt(live) <= CostAt(Lookup(before, key))
  }

  lemma SetCost(live: Option<Entry>, key: Key, value: Text, opts: WriteOptions, now: int)
    requires live.Some? ==> live.value.key == key
    ensures
      var entry := SetOutcome(live, key, value, opts, now).entry;
      && (entry.Some? ==> entry.value.key == key)
      && (if WillApply(live, opts.expectedVersion) then entry.Some? && CostAt(entry) == CostOf(key, value) else entry == live)
  {
  }

  /** Keys other than the written one only ever make way for it. */
  lemma OthersKept(before: map<Key, Entry>, fetched: map<Key, Entry>, admitted: map<Key, Entry>, key: Key, live: Option<Entry>, entry: Option<Entry>)
    requires fetched == Put(before, key, live) && OnlyEvicts(fetched, admitted, key)
    ensures
      var after := Put(admitted, key, entry);
      && Lookup(after, key) == entry
      && forall k :: k != key && Lookup(after, k) != Lookup(before, k) ==> k !in after && SpaceOf(k) == SpaceOf(key)
  {
    hide SpaceBytes;
    LookupPut(before, key, live);
    LookupPut(admitted, key, entry);
  }

  lemma PutBack(m: map<Key, Entry>, key: Key, entry: Option<Entry>)
    requires Lookup(m, key) == entry
    ensures Put(m, key, entry) == m
  {
  }

  lemma RejectedSet(q: QuotaConfig, before: map<Key, Entry>, fetched: map<Key, Entry>, after: map<Key, Entry>, key: Key, value: Text,
                    opts: WriteOptions, readAt: int, writeAt: int, verdict: Verdict, live: Option<Entry>)
    requires Fetched(q, before, fetched, key, readAt, live) && OnlyEvicts(fetched, after, key)
    requires WillApply(live, opts.expectedVersion) && verdict != Admitted
    requires verdict == SpaceExceeded <==> TooBig(q, key, CostAt(live), CostOf(key, value))
    requires verdict == NamespaceExceeded ==>
               && CostOf(key, value) > CostAt(live)
               && 0 < NamespaceLimit(q, key.namespace) < NamespaceBytes(after, key.namespace) + (CostOf(key, value) - CostAt(live))
    ensures WithinLimits(q, before, after)
    ensures SetAdmission(q, before, after, key, value, opts, readAt, writeAt, QuotaExceeded(verdict))
  {
    hide OnlyEvicts, WithinLimits, SpaceBytes, NamespaceBytes, CostOf, SetOutcome, Current;
    DroppedWithin(q, before, fetched, after, key, live);
    KeyKept(fetched, after, key);
    LookupPut(before, key, live);
    PutBack(after, key, live);
    OthersKept(before, fetched, after, key, live, live);
  }

  lemma AppliedSet(q: QuotaConfig, before: map<Key, Entry>, fetched: map<Key, Entry>, admitted: map<Key, Entry>, key: Key, value: Text,
                   opts: WriteOptions, readAt: int, writeAt: int, live: Option<Entry>)
    requires Fetched(q, before, fetched, key, readAt, live) && OnlyEvicts(fetched, admitted, key)
    requires WillApply(live, opts.expectedVersion) && CostOf(key, value) > CostAt(live) ==>
               && !TooBig(q, key, CostAt(live), CostOf(key, value))
               && Fits(q, admitted, key, CostOf(key, value) - CostAt(live))
    ensures
      var out := SetOutcome(live, key, value, opts, writeAt);
      var after := Put(admitted, key, out.entry);
      WithinLimits(q, before, after) && SetAdmission(q, before, after, key, value, opts, readAt, writeAt, Answered(out.reply))
  {
    hide OnlyEvicts, WithinLimits, SpaceBytes, NamespaceBytes, CostOf, SetOutcome, Current;
    var out := SetOutcome(live, key, value, opts, writeAt);
    SetCost(live, key, value, opts, writeAt);
    WriteWithin(q, before, fetched, admitted, key, live, out.entry);
    OthersKept(before, fetched, admitted, key, live, out.entry);
  }

  /** There is room for `delta` more bytes in the key's space and namespace. */
  ghost predicate Fits(q: QuotaConfig, content: map<Key, Entry>, key: Key, delta: nat) {
    && (SpaceLimit(q, SpaceOf(key)) > 0 ==> SpaceBytes(content, SpaceOf(key)) + delta <= SpaceLimit(q, SpaceOf(key)))
    && (NamespaceLimit(q, key.namespace) > 0 ==> NamespaceBytes(content, key.namespace) + delta <= NamespaceLimit(q, key.namespace))
  }

  // ---------------------------------------------------------------- estimated writes

  /** An estimate bounds what the write then adds, also when the estimate itself dropped an
      expired collection; adjusting an expired counter is the exception. */
  lemma WriteMeasured(codec: Codec, key: Key, was: Option<Entry>, c: Command, now: int, order: nat)
    requires LawfulCodec(codec) && IsWrite(c) && ValidKey(key) && (was.Some? ==> EntryFor(key, was.value))
    ensures
      var estimate := Apply(codec, key, was, EstimateFor(c, order), now);
      var live := estimate.entry;
      var write := Apply(codec, key, live, c, now);
      && (live.Some? ==> EntryFor(key, live.value)) && CostAt(live) <= CostAt(was)
      && (estimate.reply.Estimate? || estimate.reply.Failed?)
      && (estimate.reply.Estimate? && estimate.reply.applied ==>
            && estimate.reply.oldCost == CostAt(live)
            && (!LapsedCounter(was, c, now) ==>
                  || CostAt(write.entry) <= CostAt(live)
                  || CostAt(write.entry) - CostAt(live) <= estimate.reply.newCost - estimate.reply.oldCost))
      && (estimate.reply.Estimate? && !estimate.reply.applied && !LapsedCounter(was, c, now) ==> write.entry == live)
  {
    hide LawfulCodec, Apply;
    if was.Some? && Expired(was.value, now) {
      if c.Mutate? {
        LapsedCollection(codec, key, was, c, now, order);
        EstimateReplies(codec, key, was, c, now, order);
      } else {
        LapsedAdjust(codec, key, was.value, c, now, order);
      }
    } else {
      EstimateMeasuresGrowth(codec, key, was, c, now, order);
      EstimateReplies(codec, key, was, c, now, order);
    }
  }

  lemma EstimateReplies(codec: Codec, key: Key, was: Option<Entry>, c: Command, now: int, order: nat)
    requires IsWrite(c)
    ensures
      var reply := Apply(codec, key, was, EstimateFor(c, order), now).reply;
      reply.Estimate? || reply.Failed?
  {
    hide Loaded, Pushed, Popped, BitSet, Live;
  }

  /** An expired counter is dropped or kept by its estimate, and then only starts anew as a lapsed one. */
  lemma LapsedAdjust(codec: Codec, key: Key, was: Entry, c: Command, now: int, order: nat)
    requires c.Adjust? && Expired(was, now)
    ensures
      var estimate := Apply(codec, key, Some(was), EstimateFor(c, order), now);
      && (estimate.entry == None || estimate.entry == Some(was)) && estimate.reply == NOT_APPLIED
      && (!LapsedCounter(Some(was), c, now) ==> Apply(codec, key, estimate.entry, c, now).entry == estimate.entry)
  {
  }

  lemma LapsedCollection(codec: Codec, key: Key, was: Option<Entry>, c: Command, now: int, order: nat)
    requires LawfulCodec(codec) && c.Mutate? && ValidKey(key) && was.Some? && Expired(was.value, now)
    ensures
      var estimate := Apply(codec, key, was, EstimateFor(c, order), now);
      var write := Apply(codec, key, estimate.entry, c, now);
      && estimate.entry == None
      && (estimate.reply.Estimate? && estimate.reply.applied ==>
            estimate.reply.oldCost == 0 && CostAt(write.entry) <= estimate.reply.newCost)
      && (estimate.reply.Estimate? && !estimate.reply.applied ==> write.entry == None)
  {
    hide LawfulCodec, EstimateLive, MutateLive, Measures;
    var bare := Mutate(c.mutation, c.options.(expectedVersion := 0), c.order);
    EstimateMeasuresGrowth(codec, key, None, bare, now, order);
    var estimate := Apply(codec, key, was, EstimateFor(c, order), now);
    assert estimate == Apply(codec, key, None, EstimateFor(bare, order), now);
    var write := Apply(codec, key, None, c, now);
    assert write.entry == None || write == Apply(codec, key, None, bare, now);
    MeasuredFromNothing(codec, bare, order, estimate, Apply(codec, key, None, bare, now));
  }

  lemma MeasuredFromNothing(codec: Codec, c: Command, order: nat, estimate: Outcome, write: Outcome)
    requires Measures(codec, None, c, order, estimate, write)
    ensures estimate.entry == None
    ensures estimate.reply.Estimate? && estimate.reply.applied ==>
              estimate.reply.oldCost == 0 && CostAt(write.entry) <= estimate.reply.newCost
    ensures !(estimate.reply.Estimate? && estimate.reply.applied) ==> write.entry == None
  {
  }

  lemma PassShrinks(codec: Codec, key: Key, was: Option<Entry>, c: Command, now: int)
    requires (c.Get? || c.Touch? || c.Delete?) && (was.Some? ==> was.value.key == key)
    ensures
      var entry := Apply(codec, key, was, c, now).entry;
      (entry.Some? ==> entry.value.key == key) && CostAt(entry) <= CostAt(was)
  {
  }
}
