/** Laws of the per-key commands that hold whatever the surrounding engine does. */
module EntryLaws {
  import opened Common
  import opened Entries

  // ---------------------------------------------------------------- estimates

  /** A write whose estimate exceeds its growth: clearing a bit of a bitmap that does not exist. */
  predicate ClearsMissingBit(was: Option<Entry>, c: Command) {
    was.None? && c.Mutate? && c.mutation.SetBit? && !c.mutation.on
  }

  /** A bit that already has its value, in a text of another length than the bitmap is written
      with: the write leaves that text alone, the estimate measures a new one. */
  predicate Resized(codec: Codec, was: Option<Entry>, c: Command, order: nat) {
    && was.Some? && c.Mutate? && c.mutation.SetBit? &&
    match codec.decode(BitmapKind, was.value.value)
    case Some(Bits(bits)) =>
      && (c.mutation.offset in bits) == c.mutation.on
      && EncodedSize(codec, Bits(bits), order) != Some(|was.value.value|)
    case _ => false
  }

  /** A text that a bitmap was written to is never of another length. */
  lemma WrittenBitmapKeepsSize(codec: Codec, was: Option<Entry>, c: Command, order: nat, bits: set<int>, a: nat)
    requires LawfulCodec(codec) && ReadsBackBitmaps(codec)
    requires was.Some? && codec.encode(Bits(bits), a) == Some(was.value.value)
    ensures !Resized(codec, was, c, order)
  {
    assert EncodedSize(codec, Bits(bits), a) == EncodedSize(codec, Bits(bits), order);
  }

  predicate IsWrite(c: Command) { c.Adjust? || c.Mutate? }

  /** The estimate command asked before a write; serialization may pick another order. */
  function EstimateFor(c: Command, order: nat): Command
    requires IsWrite(c)
  {
    match c
    case Adjust(opts) => EstimateAdjust(opts)
    case Mutate(m, opts, _) => EstimateMutate(m, opts, order)
  }

  /** Measuring a collection and writing it back agree on the bytes added. */
  lemma BackAgrees(codec: Codec, key: Key, was: Option<Entry>, c: Collection, opts: WriteOptions, now: int,
                   order: nat, order2: nat, flag: bool, value: Text)
    requires LawfulCodec(codec)
    requires was.Some? ==> EntryFor(key, was.value)
    ensures
      var estimate := EstimateBack(codec, was, key, c, order);
      var write := WriteBack(codec, was, key, c, opts, now, order2, flag, value);
      && estimate.entry == was
      && (estimate.reply.Estimate? ==>
            && estimate.reply.applied && estimate.reply.oldCost == CostAt(was)
            && estimate.reply.newCost == CostAt(write.entry))
      && (!estimate.reply.Estimate? ==> write.entry == was)
  {
    assert EncodedSize(codec, c, order) == EncodedSize(codec, c, order2);
  }

  /** The collection a mutation writes back, when it writes one. */
  function Result(c: Collection, m: Mutation): Option<Collection> {
    match (c, m)
    case (Fields(fields), MapSet(field, value)) => Some(Fields(fields[field := value]))
    case (Fields(fields), MapDelete(field)) => Some(Fields(fields - {field}))
    case (Values(values), ListPush(value, front)) => Some(Values(Pushed(values, value, front)))
    case (Values(values), ListPop(front)) => if values == [] then None else Some(Values(Popped(values, front)))
    case (Bits(bits), SetBit(offset, on)) => Some(Bits(BitSet(bits, offset, on)))
    case _ => None
  }

  function PopValue(c: Collection, m: Mutation): Text {
    if c.Values? && m.ListPop? && c.values != [] then (if m.front then c.values[0] else c.values[|c.values| - 1]) else []
  }

  function PopFlag(c: Collection, m: Mutation): bool {
    m.MapDelete? || (m.SetBit? && c.Bits? && m.offset in c.bits)
  }

  lemma LoadedLaw(codec: Codec, was: Option<Entry>, kind: Kind)
    requires LawfulCodec(codec) && Loaded(codec, was, kind).Some?
    ensures HasKind(Loaded(codec, was, kind).value, kind)
    ensures if was.None? then Loaded(codec, was, kind).value == Empty(kind) else codec.decode(kind, was.value.value) == Loaded(codec, was, kind)
  {
  }

  /** What an estimate must say about a write. */
  ghost predicate Measures(codec: Codec, was: Option<Entry>, c: Command, order: nat, estimate: Outcome, write: Outcome) {
    var growth := CostAt(write.entry) - CostAt(was);
    && estimate.entry == was
    && (estimate.reply.Estimate? && estimate.reply.applied ==>
          && estimate.reply.oldCost == CostAt(was)
          && (growth > 0 ==> growth <= estimate.reply.newCost - estimate.reply.oldCost)
          && (growth == estimate.reply.newCost - estimate.reply.oldCost <==> !ClearsMissingBit(was, c) && !Resized(codec, was, c, order)))
    && (!(estimate.reply.Estimate? && estimate.reply.applied) ==> write.entry == was)
  }

  lemma MutationMeasured(codec: Codec, key: Key, was: Option<Entry>, c: Command, now: int, order: nat)
    requires LawfulCodec(codec) && c.Mutate? && ValidKey(key)
    requires was.Some? ==> EntryFor(key, was.value) && !Expired(was.value, now)
    ensures Measures(codec, was, c, order, MutateEstimate(codec, was, key, c.mutation, c.options, now, order),
                     MutateOutcome(codec, was, key, c.mutation, c.options, now, c.order))
  {
    hide LawfulCodec, WriteBack, Loaded, Overwritten, NewEntry, Pushed, Popped;
    var kind := KindOf(c.mutation);
    assert Live(was, now) == was;
    var loaded := Loaded(codec, was, kind);
    if loaded.Some? {
      LoadedLaw(codec, was, kind);
      var next := Result(loaded.value, c.mutation);
      if next.Some? {
        BackAgrees(codec, key, was, next.value, c.options, now, order, c.order,
                   PopFlag(loaded.value, c.mutation), PopValue(loaded.value, c.mutation));
        if c.mutation.SetBit? && (c.mutation.offset in loaded.value.bits) == c.mutation.on {
          assert next.value == loaded.value;
        }
      }
    }
  }

  /** Estimates measure growth: on an absent or unexpired entry the estimate changes nothing,
      an applied one bounds the bytes the write adds and promises them exactly unless a bit keeps
      its value in a missing bitmap or a text of another length, and one that is not applied means
      the write changes nothing. */
  lemma EstimateMeasuresGrowth(codec: Codec, key: Key, was: Option<Entry>, c: Command, now: int, order: nat)
    requires LawfulCodec(codec) && IsWrite(c) && ValidKey(key)
    requires was.Some? ==> EntryFor(key, was.value) && !Expired(was.value, now)
    ensures Measures(codec, was, c, order, Apply(codec, key, was, EstimateFor(c, order), now), Apply(codec, key, was, c, now))
  {
    hide LawfulCodec, MutateEstimate, MutateOutcome, Measures;
    if c.Mutate? {
      MutationMeasured(codec, key, was, c, now, order);
    } else {
      AdjustMeasured(codec, key, was, c, now, order);
    }
  }

  lemma AdjustMeasured(codec: Codec, key: Key, was: Option<Entry>, c: Command, now: int, order: nat)
    requires c.Adjust?
    requires was.Some? ==> EntryFor(key, was.value) && !Expired(was.value, now)
    ensures Measures(codec, was, c, order, AdjustEstimate(codec, was, key, c.adjust, now), AdjustOutcome(codec, was, key, c.adjust, now))
  {
  }

  // ---------------------------------------------------------------- versions over a run

  /** One thing that happens to the entry of a key: a command, an imported copy, or a removal by
      a sweep, an eviction or a range delete. */
  datatype Happening = Do(command: Command, now: int) | Bring(incoming: Entry) | Drop

  function After(codec: Codec, key: Key, was: Option<Entry>, h: Happening): Option<Entry> {
    match h
    case Do(c, now) => Apply(codec, key, was, c, now).entry
    case Bring(incoming) => ImportOver(was, incoming)
    case Drop => None
  }

  /** The entry after the first `n` happenings. */
  function EntryAt(codec: Codec, key: Key, start: Option<Entry>, run: seq<Happening>, n: nat): Option<Entry>
    requires n <= |run|
  {
    if n == 0 then start else After(codec, key, EntryAt(codec, key, start, run, n - 1), run[n - 1])
  }

  /** A conditional write: a Set or an Adjust that names the version it expects. */
  predicate Conditional(h: Happening, expected: nat) {
    expected > 0 && h.Do? &&
    match h.command
    case Set(_, opts) => opts.expectedVersion == expected
    case Adjust(opts) => opts.options.expectedVersion == expected
    case _ => false
  }

  predicate Wins(codec: Codec, key: Key, was: Option<Entry>, h: Happening, expected: nat) {
    Conditional(h, expected) && Apply(codec, key, was, h.command, h.now).reply.Stored?
  }

  /** The step leaves the entry in place: it neither drops it nor, finding it expired, drops it
      and starts a new one. */
  predicate Keeps(codec: Codec, key: Key, was: Option<Entry>, h: Happening) {
    && was.Some? && After(codec, key, was, h).Some?
    && !(h.Do? && h.command.Mutate? && Expired(was.value, h.now))
  }

  predicate Writes(h: Happening) { h.Do? && (h.command.Set? || h.command.Adjust?) }

  /** A step that keeps the entry never lowers its version, and an applied Set or Adjust raises it. */
  lemma StepKeepsVersion(codec: Codec, key: Key, was: Option<Entry>, h: Happening)
    requires Keeps(codec, key, was, h)
    ensures After(codec, key, was, h).value.version >= was.value.version
    ensures Writes(h) && Apply(codec, key, was, h.command, h.now).reply.Stored? ==>
              After(codec, key, was, h).value.version == was.value.version + 1
  {
    hide MutateLive, EstimateLive, Visible, CostOf, WriteCost;
    if h.Do? && h.command.Mutate? {
      MutationKeepsVersion(codec, key, was.value, h.command.mutation, h.command.options, h.now, h.command.order);
    } else if h.Do? && h.command.EstimateMutate? {
      EstimateKeepsEntry(codec, key, Live(was, h.now), h.command.mutation, h.command.order);
    }
  }

  lemma MutationKeepsVersion(codec: Codec, key: Key, e: Entry, m: Mutation, opts: WriteOptions, now: int, order: nat)
    ensures
      var after := MutateLive(codec, Some(e), key, m, opts, now, order).entry;
      after.Some? && after.value.version >= e.version
  {
    hide Loaded, Pushed, Popped, BitSet, CostOf, WriteReply;
  }

  /** Without that condition versions can restart: pushing onto an expired list drops the entry
      and creates version 1 anew, whatever version the caller names. */
  lemma ExpiredMutationRestarts(codec: Codec, key: Key, e: Entry, value: Text, opts: WriteOptions, now: int, order: nat)
    requires Expired(e, now) && codec.encode(Values([value]), order).Some?
    ensures
      var after := After(codec, key, Some(e), Do(Mutate(ListPush(value, false), opts, order), now));
      after.Some? && after.value.version == 1
  {
    assert [] + [value] == [value];
  }

  lemma WinnerFindsItsVersion(codec: Codec, key: Key, was: Option<Entry>, h: Happening, expected: nat)
    requires Wins(codec, key, was, h, expected)
    ensures was.Some? && was.value.version == expected
    ensures After(codec, key, was, h).Some? && After(codec, key, was, h).value.version == expected + 1
  {
  }

  /** No step of the run removes the key. */
  ghost predicate NeverRemoved(codec: Codec, key: Key, start: Option<Entry>, run: seq<Happening>) {
    forall k :: 0 <= k < |run| ==> Keeps(codec, key, EntryAt(codec, key, start, run, k), run[k])
  }

  lemma {:induction false} VersionNeverDecreases(codec: Codec, key: Key, start: Option<Entry>, run: seq<Happening>, i: nat, j: nat)
    requires start.Some? && NeverRemoved(codec, key, start, run) && i <= j <= |run|
    ensures EntryAt(codec, key, start, run, i).Some? && EntryAt(codec, key, start, run, j).Some?
    ensures EntryAt(codec, key, start, run, i).value.version <= EntryAt(codec, key, start, run, j).value.version
    decreases j
  {
    hide Apply, ImportOver;
    if i < j {
      VersionNeverDecreases(codec, key, start, run, i, j - 1);
      assert Keeps(codec, key, EntryAt(codec, key, start, run, j - 1), run[j - 1]);
      StepKeepsVersion(codec, key, EntryAt(codec, key, start, run, j - 1), run[j - 1]);
    } else if j > 0 {
      assert Keeps(codec, key, EntryAt(codec, key, start, run, j - 1), run[j - 1]);
    }
  }

  /** At most one Set or Adjust naming a given version is applied while the key stays present. */
  lemma OneWinnerPerVersion(codec: Codec, key: Key, start: Option<Entry>, run: seq<Happening>, expected: nat, i: nat, j: nat)
    requires start.Some? && NeverRemoved(codec, key, start, run) && i < |run| && j < |run|
    requires Wins(codec, key, EntryAt(codec, key, start, run, i), run[i], expected)
    requires Wins(codec, key, EntryAt(codec, key, start, run, j), run[j], expected)
    ensures i == j
  {
    hide Wins, After, EntryAt, NeverRemoved;
    if i < j {
      LaterLoses(codec, key, start, run, expected, i, j);
    } else if j < i {
      LaterLoses(codec, key, start, run, expected, j, i);
    }
  }

  lemma LaterLoses(codec: Codec, key: Key, start: Option<Entry>, run: seq<Happening>, expected: nat, i: nat, j: nat)
    requires start.Some? && NeverRemoved(codec, key, start, run) && i < j < |run|
    requires Wins(codec, key, EntryAt(codec, key, start, run, i), run[i], expected)
    ensures !Wins(codec, key, EntryAt(codec, key, start, run, j), run[j], expected)
  {
    hide Wins, After, NeverRemoved, EntryAt;
    EntryAfter(codec, key, start, run, i);
    WinnerFindsItsVersion(codec, key, EntryAt(codec, key, start, run, i), run[i], expected);
    VersionNeverDecreases(codec, key, start, run, i + 1, j);
    if Wins(codec, key, EntryAt(codec, key, start, run, j), run[j], expected) {
      WinnerFindsItsVersion(codec, key, EntryAt(codec, key, start, run, j), run[j], expected);
    }
  }

  lemma EntryAfter(codec: Codec, key: Key, start: Option<Entry>, run: seq<Happening>, i: nat)
    requires i < |run|
    ensures EntryAt(codec, key, start, run, i + 1) == After(codec, key, EntryAt(codec, key, start, run, i), run[i])
  {
    hide After;
  }
}
