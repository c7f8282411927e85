/** Cache entries and what each command does to the entry of one key (cache/engine/entry.go,
    worker.go, adjust.go, primitive*.go, snapshot_entry.go), as functions on a value.
    Times are integers on one axis; an absent expiry is Go's zero time. */
module Entries {
  import opened Common
  import opened Varint

  datatype Key = Key(namespace: Text, space: Text, entity: Text, key: Text)

  datatype SpaceRef = SpaceRef(namespace: Text, space: Text)

  datatype Entry = Entry(
    key: Key, value: Text, version: nat, namespaceVersion: nat, spaceVersion: nat, expireAt: Option<int>,
    createdAt: int, updatedAt: int, lastAccessAt: int, accessCount: nat, costBytes: nat)

  predicate ValidKey(key: Key) { key.namespace != [] && key.space != [] && key.key != [] }

  function PhysicalKey(key: Key): Text {
    Prefixed(key.namespace) + (Prefixed(key.space) + (Prefixed(key.entity) + (Prefixed(key.key) + [])))
  }

  /** Different keys never share a physical key. */
  lemma PhysicalKeyInjective(a: Key, b: Key)
    requires PhysicalKey(a) == PhysicalKey(b)
    ensures a == b
  {
    hide Prefixed;
    PrefixedPrefixFree(a.namespace, b.namespace, Prefixed(a.space) + (Prefixed(a.entity) + (Prefixed(a.key) + [])),
                       Prefixed(b.space) + (Prefixed(b.entity) + (Prefixed(b.key) + [])));
    PrefixedPrefixFree(a.space, b.space, Prefixed(a.entity) + (Prefixed(a.key) + []), Prefixed(b.entity) + (Prefixed(b.key) + []));
    PrefixedPrefixFree(a.entity, b.entity, Prefixed(a.key) + [], Prefixed(b.key) + []);
    PrefixedPrefixFree(a.key, b.key, [], []);
  }

  function SpaceOf(key: Key): SpaceRef { SpaceRef(key.namespace, key.space) }

  function CostOf(key: Key, value: Text): nat {
    |key.namespace| + |key.space| + |key.entity| + |key.key| + |value|
  }

  predicate Expired(e: Entry, now: int) { e.expireAt.Some? && e.expireAt.value <= now }

  /** The entry belongs to `key`, carries its own cost and has a version. */
  predicate EntryFor(key: Key, e: Entry) { e.key == key && e.costBytes == CostOf(key, e.value) && e.version > 0 }

  // ---------------------------------------------------------------- options and replies

  datatype GetOptions = GetOptions(namespaceVersion: nat, spaceVersion: nat)

  datatype WriteOptions = WriteOptions(ttl: int, namespaceVersion: nat, spaceVersion: nat, expectedVersion: nat)

  datatype AdjustOptions = AdjustOptions(delta: int, initialValue: int, options: WriteOptions)

  predicate Visible(e: Entry, opts: GetOptions) {
    && (opts.namespaceVersion != 0 ==> e.namespaceVersion == opts.namespaceVersion)
    && (opts.spaceVersion != 0 ==> e.spaceVersion == opts.spaceVersion)
  }

  datatype Error = InvalidKey | InvalidCounter | InvalidCollection

  datatype Reply =
    | Miss
    | Hit(record: Entry)
    | Stored(record: Entry)
    | Deleted
    | Touched
    | Primitive(subject: Option<Entry>, found: bool, applied: bool, flag: bool, count: nat, value: Text)
    | Estimate(applied: bool, oldCost: nat, newCost: nat)
    | Failed(error: Error)

  /** What a command leaves under its key, and what it answers. */
  datatype Outcome = Outcome(entry: Option<Entry>, reply: Reply)

  // ---------------------------------------------------------------- plain commands

  function ExpiryAfter(ttl: int, now: int): Option<int> { if ttl > 0 then Some(now + ttl) else None }

  function NewEntry(key: Key, value: Text, opts: WriteOptions, expireAt: Option<int>, now: int): Entry {
    Entry(key, value, 1, opts.namespaceVersion, opts.spaceVersion, expireAt, now, now, now, 1, CostOf(key, value))
  }

  /** An existing entry overwritten in place: one version up, its creation time kept. */
  function Overwritten(e: Entry, value: Text, opts: WriteOptions, expireAt: Option<int>, now: int): Entry {
    e.(value := value, version := e.version + 1, namespaceVersion := opts.namespaceVersion,
       spaceVersion := opts.spaceVersion, expireAt := expireAt, updatedAt := now, lastAccessAt := now,
       accessCount := e.accessCount + 1, costBytes := CostOf(e.key, value))
  }

  function Accessed(e: Entry, now: int): Entry { e.(lastAccessAt := now, accessCount := e.accessCount + 1) }

  function SetOutcome(was: Option<Entry>, key: Key, value: Text, opts: WriteOptions, now: int): Outcome {
    if opts.expectedVersion > 0 && (was.None? || was.value.version != opts.expectedVersion) then Outcome(was, Miss)
    else
      var expireAt := ExpiryAfter(opts.ttl, now);
      var e := if was.Some? then Overwritten(was.value, value, opts, expireAt, now) else NewEntry(key, value, opts, expireAt, now);
      Outcome(Some(e), Stored(e))
  }

  function GetOutcome(was: Option<Entry>, opts: GetOptions, now: int): Outcome {
    if was.None? then Outcome(None, Miss)
    else if Expired(was.value, now) then Outcome(None, Miss)
    else if !Visible(was.value, opts) then Outcome(was, Miss)
    else Outcome(Some(Accessed(was.value, now)), Hit(Accessed(was.value, now)))
  }

  function DeleteOutcome(was: Option<Entry>, expectedVersion: nat): Outcome {
    if was.None? || (expectedVersion > 0 && was.value.version != expectedVersion) then Outcome(was, Miss)
    else Outcome(None, Deleted)
  }

  function TouchOutcome(was: Option<Entry>, opts: WriteOptions, now: int): Outcome {
    if was.None? || opts.ttl < 0 then Outcome(was, Miss)
    else if Expired(was.value, now) then Outcome(None, Miss)
    else if opts.expectedVersion > 0 && was.value.version != opts.expectedVersion then Outcome(was, Miss)
    else if !Visible(was.value, GetOptions(opts.namespaceVersion, opts.spaceVersion)) then Outcome(was, Miss)
    else Outcome(Some(Accessed(was.value, now).(expireAt := ExpiryAfter(opts.ttl, now), updatedAt := now)), Touched)
  }

  // ---------------------------------------------------------------- counters

  const INT64_MAX: int := 0x7fff_ffff_ffff_ffff
  const INT64_MIN: int := -INT64_MAX - 1

  predicate IsInt64(x: int) { INT64_MIN <= x <= INT64_MAX }

  function SafeAdd(base: int, delta: int): Option<int> {
    if delta > 0 && base > INT64_MAX - delta then None
    else if delta < 0 && base < INT64_MIN - delta then None
    else Some(base + delta)
  }

  /** The overflow tests refuse exactly the sums that do not fit in 64 bits. */
  lemma SafeAddIsExact(base: int, delta: int)
    requires IsInt64(base) && IsInt64(delta)
    ensures SafeAdd(base, delta) == if IsInt64(base + delta) then Some(base + delta) else None
  {
  }

  /** Decimal text and the collection serializers, which this model does not spell out. A Go map
      is serialized in whatever order it is iterated in, here the second argument of `encode`. */
  datatype Codec = Codec(
    parse: Text -> Option<int>, format: int -> Text,
    decode: (Kind, Text) -> Option<Collection>, encode: (Collection, nat) -> Option<Text>)

  datatype Prepared =
    | Refused
    | Lapsed
    | Broken
    | Ready(next: int, expireAt: Option<int>)

  /** `prepareCounterAdjustment`: an expired counter is dropped and the adjustment not applied. */
  function Prepare(codec: Codec, was: Option<Entry>, opts: AdjustOptions, now: int): Prepared {
    var expected := opts.options.expectedVersion;
    if was.None? then
      if expected > 0 then Refused
      else match SafeAdd(opts.initialValue, opts.delta)
           case None => Broken
           case Some(next) => Ready(next, ExpiryAfter(opts.options.ttl, now))
    else if expected > 0 && was.value.version != expected then Refused
    else if Expired(was.value, now) then Lapsed
    else
      match codec.parse(was.value.value)
      case None => Broken
      case Some(current) =>
        match SafeAdd(current, opts.delta)
        case None => Broken
        case Some(next) => Ready(next, was.value.expireAt)
  }

  function AdjustOutcome(codec: Codec, was: Option<Entry>, key: Key, opts: AdjustOptions, now: int): Outcome {
    match Prepare(codec, was, opts, now)
    case Refused => Outcome(was, Miss)
    case Lapsed => Outcome(None, Miss)
    case Broken => Outcome(was, Failed(InvalidCounter))
    case Ready(next, expireAt) =>
      var value := codec.format(next);
      var e := if was.Some? then Overwritten(was.value, value, opts.options, expireAt, now)
               else NewEntry(key, value, opts.options, expireAt, now);
      Outcome(Some(e), Stored(e))
  }

  function CostAt(entry: Option<Entry>): nat { if entry.Some? then entry.value.costBytes else 0 }

  const NOT_APPLIED := Estimate(false, 0, 0)

  function WriteCost(was: Option<Entry>, key: Key, value: Text): Reply {
    Estimate(true, CostAt(was), CostOf(key, value))
  }

  function AdjustEstimate(codec: Codec, was: Option<Entry>, key: Key, opts: AdjustOptions, now: int): Outcome {
    match Prepare(codec, was, opts, now)
    case Refused => Outcome(was, NOT_APPLIED)
    case Lapsed => Outcome(None, NOT_APPLIED)
    case Broken => Outcome(was, Failed(InvalidCounter))
    case Ready(next, _) => Outcome(was, WriteCost(was, key, codec.format(next)))
  }

  // ---------------------------------------------------------------- collections

  datatype Kind = MapKind | ListKind | BitmapKind

  datatype Collection = Fields(fields: map<Text, Text>) | Values(values: seq<Text>) | Bits(bits: set<int>)

  datatype Mutation =
    | MapSet(field: Text, value: Text)
    | MapDelete(field: Text)
    | ListPush(value: Text, front: bool)
    | ListPop(front: bool)
    | SetBit(offset: int, on: bool)

  function KindOf(m: Mutation): Kind {
    match m
    case MapSet(_, _) => MapKind
    case MapDelete(_) => MapKind
    case ListPush(_, _) => ListKind
    case ListPop(_) => ListKind
    case SetBit(_, _) => BitmapKind
  }

  predicate HasKind(c: Collection, kind: Kind) {
    match kind
    case MapKind => c.Fields?
    case ListKind => c.Values?
    case BitmapKind => c.Bits?
  }

  function Empty(kind: Kind): (c: Collection)
    ensures HasKind(c, kind)
  {
    match kind
    case MapKind => Fields(map[])
    case ListKind => Values([])
    case BitmapKind => Bits({})
  }

  function Count(c: Collection): nat {
    match c
    case Fields(m) => |m|
    case Values(s) => |s|
    case Bits(b) => |b|
  }

  /** Serializers return collections of the kind asked for, and a collection is written with one
      length in whatever order. */
  ghost predicate LawfulCodec(codec: Codec) {
    && (forall kind, raw :: codec.decode(kind, raw).Some? ==> HasKind(codec.decode(kind, raw).value, kind))
    && (forall c, a, b :: EncodedSize(codec, c, a) == EncodedSize(codec, c, b))
  }

  /** Bitmaps are read back as they were written. */
  ghost predicate ReadsBackBitmaps(codec: Codec) {
    forall bits, a :: codec.encode(Bits(bits), a).Some? ==> codec.decode(BitmapKind, codec.encode(Bits(bits), a).value) == Some(Bits(bits))
  }

  function EncodedSize(codec: Codec, c: Collection, order: nat): Option<nat> {
    match codec.encode(c, order)
    case None => None
    case Some(raw) => Some(|raw|)
  }

  /** `mutablePrimitiveEntry`: an expired entry is dropped and then counts as absent, whatever
      version the caller expects. */
  function Live(was: Option<Entry>, now: int): Option<Entry> {
    if was.Some? && Expired(was.value, now) then None else was
  }

  predicate VersionRefused(was: Option<Entry>, expected: nat, now: int) {
    Live(was, now) == was && expected != 0 && !(was.Some? && was.value.version == expected)
  }

  /** The collection a mutation starts from, or `None` when the stored value is not one. */
  function Loaded(codec: Codec, live: Option<Entry>, kind: Kind): (r: Option<Collection>) {
    if live.None? then Some(Empty(kind)) else codec.decode(kind, live.value.value)
  }

  function PrimitiveExpiry(ttl: int, now: int, existing: Option<int>): Option<int> {
    if ttl > 0 then Some(now + ttl) else existing
  }

  function WriteReply(e: Entry, flag: bool, count: nat, value: Text): Reply {
    Primitive(Some(e), true, true, flag, count, value)
  }

  /** Writing back a collection; an entry whose bytes come out the same is left alone. */
  function WriteBack(codec: Codec, live: Option<Entry>, key: Key, c: Collection, opts: WriteOptions, now: int, order: nat,
                     flag: bool, value: Text): Outcome {
    match codec.encode(c, order)
    case None => Outcome(live, Failed(InvalidCollection))
    case Some(raw) =>
      if live.None? then
        var e := NewEntry(key, raw, opts, PrimitiveExpiry(opts.ttl, now, None), now);
        Outcome(Some(e), WriteReply(e, flag, Count(c), value))
      else if live.value.value == raw then Outcome(live, WriteReply(live.value, flag, Count(c), value))
      else
        var e := Overwritten(live.value, raw, opts, PrimitiveExpiry(opts.ttl, now, live.value.expireAt), now);
        Outcome(Some(e), WriteReply(e, flag, Count(c), value))
  }

  const PRIMITIVE_MISS := Primitive(None, false, false, false, 0, [])

  function Pushed(values: seq<Text>, value: Text, front: bool): seq<Text> {
    if front then [value] + values else values + [value]
  }

  function Popped(values: seq<Text>, front: bool): seq<Text>
    requires values != []
  {
    if front then values[1..] else values[..|values| - 1]
  }

  function BitSet(bits: set<int>, offset: int, on: bool): set<int> {
    if on then bits + {offset} else bits - {offset}
  }

  function MutateOutcome(codec: Codec, was: Option<Entry>, key: Key, m: Mutation, opts: WriteOptions, now: int, order: nat): Outcome {
    if VersionRefused(was, opts.expectedVersion, now) then Outcome(was, PRIMITIVE_MISS)
    else MutateLive(codec, Live(was, now), key, m, opts, now, order)
  }

  /** A mutation of the live entry, or of an empty collection when there is none. */
  function MutateLive(codec: Codec, live: Option<Entry>, key: Key, m: Mutation, opts: WriteOptions, now: int, order: nat): Outcome {
    match (Loaded(codec, live, KindOf(m)), m)
    case (Some(Fields(fields)), MapSet(field, value)) =>
      if live.Some? && field in fields && fields[field] == value
      then Outcome(live, WriteReply(live.value, false, |fields|, []))
      else WriteBack(codec, live, key, Fields(fields[field := value]), opts, now, order, false, [])
    case (Some(Fields(fields)), MapDelete(field)) =>
      if live.None? then Outcome(None, PRIMITIVE_MISS)
      else if field !in fields then Outcome(live, WriteReply(live.value, false, |fields|, []))
      else WriteBack(codec, live, key, Fields(fields - {field}), opts, now, order, true, [])
    case (Some(Values(values)), ListPush(value, front)) =>
      WriteBack(codec, live, key, Values(Pushed(values, value, front)), opts, now, order, false, [])
    case (Some(Values(values)), ListPop(front)) =>
      if live.None? then Outcome(None, PRIMITIVE_MISS)
      else if values == [] then Outcome(live, Primitive(live, false, false, false, 0, []))
      else WriteBack(codec, live, key, Values(Popped(values, front)), opts, now, order, false,
                     if front then values[0] else values[|values| - 1])
    case (Some(Bits(bits)), SetBit(offset, on)) =>
      if (offset in bits) == on then
        Outcome(live, if live.Some? then WriteReply(live.value, on, |bits|, []) else Primitive(None, false, true, on, 0, []))
      else WriteBack(codec, live, key, Bits(BitSet(bits, offset, on)), opts, now, order, offset in bits, [])
    case _ => Outcome(live, Failed(InvalidCollection))
  }

  function EstimateBack(codec: Codec, live: Option<Entry>, key: Key, c: Collection, order: nat): Outcome {
    match codec.encode(c, order)
    case None => Outcome(live, Failed(InvalidCollection))
    case Some(raw) => Outcome(live, WriteCost(live, key, raw))
  }

  /** The admission estimate of a mutation. For bitmaps it measures the write even when the bit
      already has its value. */
  function MutateEstimate(codec: Codec, was: Option<Entry>, key: Key, m: Mutation, opts: WriteOptions, now: int, order: nat): Outcome {
    if VersionRefused(was, opts.expectedVersion, now) then Outcome(was, NOT_APPLIED)
    else EstimateLive(codec, Live(was, now), key, m, order)
  }

  function EstimateLive(codec: Codec, live: Option<Entry>, key: Key, m: Mutation, order: nat): Outcome {
    match (Loaded(codec, live, KindOf(m)), m)
    case (Some(Fields(fields)), MapSet(field, value)) =>
      if live.Some? && field in fields && fields[field] == value
      then Outcome(live, Estimate(true, CostAt(live), CostAt(live)))
      else EstimateBack(codec, live, key, Fields(fields[field := value]), order)
    case (Some(Fields(fields)), MapDelete(field)) =>
      if live.None? then Outcome(None, NOT_APPLIED)
      else if field !in fields then Outcome(live, Estimate(true, CostAt(live), CostAt(live)))
      else EstimateBack(codec, live, key, Fields(fields - {field}), order)
    case (Some(Values(values)), ListPush(value, front)) =>
      EstimateBack(codec, live, key, Values(Pushed(values, value, front)), order)
    case (Some(Values(values)), ListPop(front)) =>
      if live.None? then Outcome(None, NOT_APPLIED)
      else if values == [] then Outcome(live, Estimate(true, CostAt(live), CostAt(live)))
      else EstimateBack(codec, live, key, Values(Popped(values, front)), order)
    case (Some(Bits(bits)), SetBit(offset, on)) =>
      EstimateBack(codec, live, key, Bits(BitSet(bits, offset, on)), order)
    case _ => Outcome(live, Failed(InvalidCollection))
  }

  // ---------------------------------------------------------------- commands

  datatype Command =
    | Set(value: Text, options: WriteOptions)
    | Get(lookup: GetOptions)
    | Delete(expectedVersion: nat)
    | Touch(options: WriteOptions)
    | Adjust(adjust: AdjustOptions)
    | EstimateAdjust(adjust: AdjustOptions)
    | Mutate(mutation: Mutation, options: WriteOptions, order: nat)
    | EstimateMutate(mutation: Mutation, options: WriteOptions, order: nat)

  /** What one command does to the entry of its key. */
  function Apply(codec: Codec, key: Key, was: Option<Entry>, c: Command, now: int): Outcome {
    match c
    case Set(value, opts) => SetOutcome(was, key, value, opts, now)
    case Get(opts) => GetOutcome(was, opts, now)
    case Delete(expected) => DeleteOutcome(was, expected)
    case Touch(opts) => TouchOutcome(was, opts, now)
    case Adjust(opts) => AdjustOutcome(codec, was, key, opts, now)
    case EstimateAdjust(opts) => AdjustEstimate(codec, was, key, opts, now)
    case Mutate(m, opts, order) => MutateOutcome(codec, was, key, m, opts, now, order)
    case EstimateMutate(m, opts, order) => MutateEstimate(codec, was, key, m, opts, now, order)
  }

  /** Every command leaves an entry that belongs to its key and carries its own cost. */
  lemma ApplyKeepsFiling(codec: Codec, key: Key, was: Option<Entry>, c: Command, now: int)
    requires was.Some? ==> EntryFor(key, was.value)
    ensures
      var after := Apply(codec, key, was, c, now).entry;
      after.Some? ==> EntryFor(key, after.value)
  {
    hide MutateLive, EstimateLive, CostOf;
    if c.Mutate? {
      MutateKeepsFiling(codec, key, Live(was, now), c.mutation, c.options, now, c.order);
    } else if c.EstimateMutate? {
      EstimateKeepsEntry(codec, key, Live(was, now), c.mutation, c.order);
    }
  }

  lemma MutateKeepsFiling(codec: Codec, key: Key, live: Option<Entry>, m: Mutation, opts: WriteOptions, now: int, order: nat)
    requires live.Some? ==> EntryFor(key, live.value)
    ensures
      var after := MutateLive(codec, live, key, m, opts, now, order).entry;
      after.Some? ==> EntryFor(key, after.value)
  {
    hide Loaded, Pushed, Popped, BitSet, CostOf, WriteReply;
  }

  lemma EstimateKeepsEntry(codec: Codec, key: Key, live: Option<Entry>, m: Mutation, order: nat)
    ensures EstimateLive(codec, live, key, m, order).entry == live
  {
    hide Loaded, Pushed, Popped, BitSet, CostOf;
  }

  // ---------------------------------------------------------------- snapshots of entries

  datatype Snap = Snap(
    key: Key, value: Text, version: nat, namespaceVersion: nat, spaceVersion: nat, expireAt: Option<int>,
    createdAt: int, updatedAt: int, lastAccessAt: int, accessCount: nat)

  function SnapOf(e: Entry): Snap {
    Snap(e.key, e.value, e.version, e.namespaceVersion, e.spaceVersion, e.expireAt, e.createdAt, e.updatedAt, e.lastAccessAt, e.accessCount)
  }

  function EntryOf(s: Snap): Entry {
    Entry(s.key, s.value, if s.version == 0 then 1 else s.version, s.namespaceVersion, s.spaceVersion, s.expireAt,
          s.createdAt, s.updatedAt, s.lastAccessAt, s.accessCount, CostOf(s.key, s.value))
  }

  /** An entry survives the trip through a snapshot unchanged exactly when its cost is its own
      and it has a version. */
  lemma SnapRoundTrip(e: Entry)
    ensures EntryOf(SnapOf(e)) == e <==> EntryFor(e.key, e)
  {
  }

  predicate ShouldImport(existing: Entry, incoming: Entry) {
    if incoming.version != existing.version then incoming.version > existing.version
    else incoming.updatedAt > existing.updatedAt
  }

  function ImportOver(was: Option<Entry>, incoming: Entry): Option<Entry> {
    if was.Some? && !ShouldImport(was.value, incoming) then was else Some(incoming)
  }
}
