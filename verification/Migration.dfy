/** The migration of one range (control/migration_executor.go) as a step relation: the source and
    target engines, their fences, the task record, the executor and its clients. Frames and
    commands are atomic and all parties read one clock. */
module MigrationProtocol {
  import opened Common
  import opened Routing
  import opened MigrationTasks
  import opened Entries
  import opened Removal
  import opened Shards
  import opened Fences

  /** Where the executor is. It keeps the snapshot it exported until it has imported it. */
  datatype Executor =
    | Idle
    | AtFence
    | AtExport
    | AtImport(snapshot: map<Key, Entry>)
    | AtCutover
    | AtDelete(cleanup: bool)
    | AtUnfence(cleanup: bool, deleted: bool)
    | AtComplete
    | AtFail

  datatype State = State(
    clock: int, source: map<Key, Entry>, target: map<Key, Entry>,
    sourceFences: seq<Fence>, targetFences: seq<Fence>, task: Task, executor: Executor,
    // the last accepted content of every key, recorded from commands and replies alone
    last: map<Key, Entry>)

  /** How a call to a node or to the control plane ends. A failed one may still have happened,
      in part where the operation works shard by shard. */
  datatype Call = Done | Lost(part: set<Key>) | NotSent

  datatype Action =
    | Tick(now: int)
    | Client(atSource: bool, frame: seq<Item>)
    | SweepNode(atSource: bool)
    | StaleRead(atSource: bool, key: Key, lookup: GetOptions)
    | OtherFence(atSource: bool, fence: Fence, up: bool)
    | Claim
    | Fence(call: Call)
    | Export(call: Call)
    | Import(call: Call)
    | Cutover(imported: nat, call: Call)
    | DeleteSource(call: Call)
    | Unfence(call: Call)
    | Complete(imported: nat, deleted: nat, call: Call)
    | Fail(message: Text, retryAfterMs: int, call: Call)
    | Abandon
    | Reap(timeoutMs: int, retryAfterMs: int)

  /** What does not change during a run: the slot function, the codec and the range. */
  datatype World = World(slot: SlotFunction, codec: Codec, range: RangeOptions)

  const NANOSECONDS := 1_000_000_000

  function Unix(clock: int): int { clock / NANOSECONDS }

  predicate InMove(w: World, key: Key) { KeyInRange(w.slot, key, w.range) }

  // ---------------------------------------------------------------- nodes

  /** The outcome of a frame's commands, in order, on one node, and the replies' account of it. */
  function Serve(w: World, m: map<Key, Entry>, last: map<Key, Entry>, frame: seq<Item>, now: int): (map<Key, Entry>, map<Key, Entry>)
    decreases frame
  {
    if frame == [] then (m, last)
    else
      var item := frame[0];
      var out := Entries.Apply(w.codec, item.key, Lookup(m, item.key), item.command, now);
      Serve(w, Put(m, item.key, out.entry), LastAfter(last, item.key, item.command, out.reply, now), frame[1..], now)
  }

  /** The last accepted content after a command, told from the command and its reply. */
  function LastAfter(last: map<Key, Entry>, key: Key, c: Command, reply: Reply, now: int): map<Key, Entry> {
    match reply
    case Stored(record) => last[key := record]
    case Primitive(subject, _, _, _, _, _) => if subject.Some? then last[key := subject.value] else last
    case Deleted => last - {key}
    case Touched =>
      if key in last && c.Touch? then last[key := last[key].(expireAt := ExpiryAfter(c.options.ttl, now), updatedAt := now)] else last
    case _ => last
  }

  function ImportMap(m: map<Key, Entry>, snapshot: map<Key, Entry>): map<Key, Entry> {
    map k | k in m.Keys + snapshot.Keys ::
      if k in snapshot then ImportOver(Lookup(m, k), snapshot[k]).value else m[k]
  }

  function Part(m: map<Key, Entry>, keys: set<Key>): map<Key, Entry> { map k | k in m && k in keys :: m[k] }

  predicate Reached(call: Call) { !call.NotSent? }

  /** An entry up to the bookkeeping of reads. */
  function View(e: Entry): Entry { e.(lastAccessAt := 0, accessCount := 0) }

  /** What is readable under a key. */
  function Readable(m: map<Key, Entry>, key: Key, now: int): Option<Entry> {
    if key in m && !Expired(m[key], now) then Some(View(m[key])) else None
  }

  // ---------------------------------------------------------------- bitmap writes behind the fence

  /** Nothing changed but read bookkeeping and the removal of an expired entry. */
  predicate FadedTo(was: Option<Entry>, after: Option<Entry>, now: int) {
    && (after.Some? ==> was.Some? && View(after.value) == View(was.value))
    && (was.Some? && after.None? ==> Expired(was.value, now))
  }

  /** The earliest time at which the task can be exported again. */
  function RetryAt(s: State): int {
    if !s.executor.Idle? then s.clock
    else match s.task.state
         case Failed => Max(s.clock, s.task.nextRetryUnix * NANOSECONDS)
         case Running => Max(s.clock, (s.task.startedAtUnix + 1) * NANOSECONDS)
         case _ => s.clock
  }

  /** An export at any time from `at` on brings an earlier copy up to date: while the source's
      entry lives it is imported over the copy, and once it has expired so has the copy. */
  predicate Renews(copy: Entry, source: Entry, at: int) {
    View(copy) == View(source) ||
    ((ShouldImport(copy, source) || Expired(source, at))
     && (source.expireAt.Some? ==> Expired(copy, Max(at, source.expireAt.value))))
  }

  /** A write to the fenced range that the fence let through does no harm: it changes nothing, or
      it comes before the export and renews whatever copy an earlier attempt left on the target. */
  predicate Harmless(s: State, key: Key, was: Option<Entry>, after: Option<Entry>) {
    FadedTo(was, after, s.clock) ||
    (!s.executor.AtImport? && !s.executor.AtCutover?
     && (key in s.target ==> after.Some? && Renews(s.target[key], after.value, RetryAt(s))))
  }

  predicate HarmlessItem(w: World, s: State, m: map<Key, Entry>, item: Item) {
    InMove(w, item.key) ==>
      Harmless(s, item.key, Lookup(m, item.key), Entries.Apply(w.codec, item.key, Lookup(m, item.key), item.command, s.clock).entry)
  }

  predicate HarmlessFrame(w: World, s: State, m: map<Key, Entry>, frame: seq<Item>)
    decreases frame
  {
    frame == [] ||
    (HarmlessItem(w, s, m, frame[0])
     && var out := Entries.Apply(w.codec, frame[0].key, Lookup(m, frame[0].key), frame[0].command, s.clock);
     HarmlessFrame(w, s, Put(m, frame[0].key, out.entry), frame[1..]))
  }

  // ---------------------------------------------------------------- steps

  predicate ClientCommand(c: Command) { c.Get? || c.Set? || c.Delete? || c.Touch? || c.Adjust? || c.Mutate? }

  ghost predicate Fenced(w: World, s: State) { w.range in s.sourceFences }

  /** A frame clients may send to this node: keys of the range go to the node the effective routes
      name. Bitmap writes are not checked against fences; those that get through to the fenced
      range must be harmless. */
  ghost predicate Routed(w: World, s: State, atSource: bool, frame: seq<Item>) {
    && (forall i :: 0 <= i < |frame| ==>
          ClientCommand(frame[i].command) && (InMove(w, frame[i].key) ==> atSource == RoutesSource(s.task)))
    && (atSource && RoutesSource(s.task) && Fenced(w, s) && !FencedFrame(w.slot, s.sourceFences, frame) ==>
          HarmlessFrame(w, s, s.source, frame))
  }

  ghost predicate Enabled(w: World, s: State, a: Action) {
    match a
    case Tick(now) => now >= s.clock
    case Client(atSource, frame) => Routed(w, s, atSource, frame)
    case SweepNode(_) => true
    case StaleRead(_, _, _) => true
    case OtherFence(atSource, fence, _) => atSource ==> fence != w.range
    case Claim => s.executor.Idle? && Claimable(s.task, Unix(s.clock))
    case Fence(_) => s.executor.AtFence?
    case Export(_) => s.executor.AtExport?
    case Import(_) => s.executor.AtImport?
    case Cutover(_, _) => s.executor.AtCutover?
    case DeleteSource(_) => s.executor.AtDelete?
    case Unfence(_) => s.executor.AtUnfence?
    case Complete(_, _, _) => s.executor.AtComplete?
    case Fail(_, _, _) => s.executor.AtFail?
    case Abandon => true
    case Reap(timeout, _) => s.executor.Idle? && timeout > 0 && TimedOut(s.task, Unix(s.clock), timeout)
  }

  function ClientStep(w: World, s: State, atSource: bool, frame: seq<Item>): State {
    var node, fences := if atSource then s.source else s.target, if atSource then s.sourceFences else s.targetFences;
    if FencedFrame(w.slot, fences, frame) then s
    else
      var (after, last) := Serve(w, node, s.last, frame, s.clock);
      (if atSource then s.(source := after) else s.(target := after)).(last := last)
  }

  function OtherFenceStep(s: State, atSource: bool, fence: Fence, up: bool): State {
    if atSource then s.(sourceFences := if up then AddFence(s.sourceFences, fence) else RemoveFence(s.sourceFences, fence))
    else s.(targetFences := if up then AddFence(s.targetFences, fence) else RemoveFence(s.targetFences, fence))
  }

  function ReadAt(m: map<Key, Entry>, key: Key, lookup: GetOptions, now: int): map<Key, Entry> {
    Put(m, key, GetOutcome(Lookup(m, key), lookup, now).entry)
  }

  function ImportStep(s: State, snapshot: map<Key, Entry>, call: Call): State {
    match call
    case Done => s.(target := ImportMap(s.target, snapshot), executor := AtCutover)
    case Lost(part) => s.(target := ImportMap(s.target, Part(snapshot, part)), executor := AtFail)
    case NotSent => s.(executor := AtFail)
  }

  function DeleteStep(w: World, s: State, cleanup: bool, call: Call): State {
    match call
    case Done => s.(source := Rejected(s.source, InRangeOf(w.slot, w.range)), executor := AtUnfence(cleanup, true))
    case Lost(part) =>
      s.(source := s.source - (set k | k in s.source && k in part && InMove(w, k)),
         executor := if cleanup then AtUnfence(true, false) else AtFail)
    case NotSent => s.(executor := if cleanup then AtUnfence(true, false) else AtFail)
  }

  function Next(w: World, s: State, a: Action): State {
    match a
    case Tick(now) => s.(clock := now)
    case Client(atSource, frame) => ClientStep(w, s, atSource, frame)
    case SweepNode(atSource) =>
      if atSource then s.(source := Rejected(s.source, ExpiredAt(s.clock))) else s.(target := Rejected(s.target, ExpiredAt(s.clock)))
    case StaleRead(atSource, key, lookup) =>
      if atSource then s.(source := ReadAt(s.source, key, lookup, s.clock)) else s.(target := ReadAt(s.target, key, lookup, s.clock))
    case OtherFence(atSource, fence, up) => OtherFenceStep(s, atSource, fence, up)
    case Claim =>
      // a task that was cut over before goes straight to cleaning up
      s.(task := MarkRunning(s.task, Unix(s.clock)), executor := if s.task.cutoverAtUnix > 0 then AtDelete(true) else AtFence)
    case Fence(call) =>
      s.(sourceFences := if Reached(call) then AddFence(s.sourceFences, w.range) else s.sourceFences,
         executor := if call.Done? then AtExport else AtFail)
    case Export(call) =>
      s.(executor := if call.Done? then AtImport(Selected(s.source, ExportedBy(w.slot, w.range, s.clock))) else AtFail)
    case Import(call) => if s.executor.AtImport? then ImportStep(s, s.executor.snapshot, call) else s
    case Cutover(imported, call) =>
      s.(task := if Reached(call) then MigrationTasks.Apply(s.task, CutoverUpdate(imported, Unix(s.clock))) else s.task,
         executor := if call.Done? then AtDelete(false) else AtFail)
    case DeleteSource(call) => if s.executor.AtDelete? then DeleteStep(w, s, s.executor.cleanup, call) else s
    case Unfence(call) =>
      s.(sourceFences := if Reached(call) then RemoveFence(s.sourceFences, w.range) else s.sourceFences,
         executor := if call.Done? && s.executor.AtUnfence? && s.executor.deleted then AtComplete else AtFail)
    case Complete(imported, deleted, call) =>
      s.(task := if Reached(call) then MigrationTasks.Apply(s.task, CompleteUpdate(imported, deleted, Unix(s.clock))) else s.task,
         executor := Idle)
    case Fail(message, retry, call) =>
      s.(task := if Reached(call) then MigrationTasks.Apply(s.task, FailUpdate(message, retry, Unix(s.clock))) else s.task,
         executor := Idle)
    case Abandon => s.(executor := Idle)
    case Reap(_, retry) => s.(task := MigrationTasks.Apply(s.task, FailUpdate([], retry, Unix(s.clock))))
  }

  // ---------------------------------------------------------------- what is promised

  function Owner(s: State): map<Key, Entry> { if RoutesSource(s.task) then s.source else s.target }

  /** The node the routes name holds exactly the last accepted content of every unexpired key. */
  ghost predicate NothingLost(w: World, s: State) {
    forall k :: InMove(w, k) ==> Readable(Owner(s), k, s.clock) == Readable(s.last, k, s.clock)
  }

  // ---------------------------------------------------------------- the invariant

  /** Copies of the range agree with the source: equal where the source still has the key, and
      expired where it has not. */
  ghost predicate CopyOf(w: World, s: State, copy: map<Key, Entry>) {
    forall k :: k in copy && InMove(w, k) ==>
      if k in s.source then View(s.source[k]) == View(copy[k]) else Expired(copy[k], s.clock)
  }

  /** Every readable key of the source's range is in the copy. */
  ghost predicate Full(w: World, s: State, copy: map<Key, Entry>) {
    forall k :: k in s.source && InMove(w, k) && !Expired(s.source[k], s.clock) ==> k in copy
  }

  /** Whatever an earlier attempt left on the target under a key, the next export brings it up to date. */
  predicate CatchesUp(s: State, k: Key) {
    k in s.target ==>
      if k in s.source then Renews(s.target[k], s.source[k], RetryAt(s)) else Expired(s.target[k], RetryAt(s))
  }

  /** The target reads like the source. */
  ghost predicate UpToDate(w: World, s: State) {
    forall k :: k in s.source && InMove(w, k) && !Expired(s.source[k], s.clock) ==> k in s.target && View(s.target[k]) == View(s.source[k])
  }

  /** Before the cutover: once anything was copied the source's range is fenced, and the copies
      can be brought up to date; between export and cutover they are. */
  ghost predicate BeforeCutover(w: World, s: State) {
    && (forall k :: InMove(w, k) ==> CatchesUp(s, k))
    && ((exists k :: k in s.target && InMove(w, k)) ==> Fenced(w, s))
    && (s.executor.AtExport? ==> Fenced(w, s))
    && (s.executor.AtImport? ==>
          && Fenced(w, s) && CopyOf(w, s, s.executor.snapshot) && Full(w, s, s.executor.snapshot)
          && forall k :: k in s.executor.snapshot ==> InMove(w, k))
    && (s.executor.AtCutover? ==> Fenced(w, s) && UpToDate(w, s))
  }

  /** The executor's position fits the task: it copies only before the cutover and cleans up only after it. */
  ghost predicate InStep(s: State) {
    && s.task.cutoverAtUnix >= 0
    && (s.task.state == TaskState.Done ==> s.task.cutoverAtUnix > 0)
    && s.task.startedAtUnix >= 0 && (s.task.state == Running ==> s.task.startedAtUnix > 0)
    && (s.task.state == Cleanup ==> s.task.cutoverAtUnix > 0)
    && (s.executor.AtFence? || s.executor.AtExport? || s.executor.AtImport? || s.executor.AtCutover? ==>
          RoutesSource(s.task))
    && (s.executor.AtDelete? || s.executor.AtUnfence? || s.executor.AtComplete? ==> s.task.cutoverAtUnix > 0)
  }

  /** Every entry is stored under its own key and carries its own cost. */
  ghost predicate WellFiled(m: map<Key, Entry>) { forall k :: k in m ==> EntryFor(k, m[k]) }

  ghost predicate Inv(w: World, s: State) {
    && Unix(s.clock) > 0 && InStep(s) && WellFiled(s.source) && WellFiled(s.target)
    && (s.executor.AtImport? ==> WellFiled(s.executor.snapshot))
    && (RoutesSource(s.task) ==> BeforeCutover(w, s))
    && NothingLost(w, s)
  }

  /** A migration about to start: the target holds nothing of the range. */
  ghost predicate Start(w: World, s: State) {
    && Unix(s.clock) > 0 && s.task.state == Planned && s.task.cutoverAtUnix == 0 && s.task.startedAtUnix == 0 && s.executor.Idle?
    && (forall k :: k in s.target ==> !InMove(w, k))
    && s.last == s.source && WellFiled(s.source) && WellFiled(s.target)
  }

  lemma StartInv(w: World, s: State)
    requires Start(w, s)
    ensures Inv(w, s)
  {
  }

  // ---------------------------------------------------------------- commands and the last accepted content

  /** A command leaves the readable entry equal to what its reply says was accepted last. */
  lemma ItemTracks(w: World, m: map<Key, Entry>, last: map<Key, Entry>, key: Key, c: Command, now: int)
    requires ClientCommand(c)
    requires Readable(m, key, now) == Readable(last, key, now)
    ensures
      var out := Entries.Apply(w.codec, key, Lookup(m, key), c, now);
      Readable(Put(m, key, out.entry), key, now) == Readable(LastAfter(last, key, c, out.reply, now), key, now)
  {
    if c.Mutate? {
      MutateTracks(w.codec, key, Lookup(m, key), c, now);
      hide Entries.Apply, View;
      TrackedWrite(m, last, key, c, Entries.Apply(w.codec, key, Lookup(m, key), c, now), now);
    } else {
      PlainTracks(w, m, last, key, c, now);
    }
  }

  lemma PlainTracks(w: World, m: map<Key, Entry>, last: map<Key, Entry>, key: Key, c: Command, now: int)
    requires ClientCommand(c) && !c.Mutate?
    requires Readable(m, key, now) == Readable(last, key, now)
    ensures
      var out := Entries.Apply(w.codec, key, Lookup(m, key), c, now);
      Readable(Put(m, key, out.entry), key, now) == Readable(LastAfter(last, key, c, out.reply, now), key, now)
  {
    hide CostOf;
  }

  lemma TrackedWrite(m: map<Key, Entry>, last: map<Key, Entry>, key: Key, c: Command, out: Outcome, now: int)
    requires Readable(m, key, now) == Readable(last, key, now) && (out.reply.Primitive? || out.reply.Failed?)
    requires
      if out.reply.Primitive? && out.reply.subject.Some? then out.entry == out.reply.subject
      else out.entry == Lookup(m, key) || (out.entry == None && key in m && Expired(m[key], now))
    ensures Readable(Put(m, key, out.entry), key, now) == Readable(LastAfter(last, key, c, out.reply, now), key, now)
  {
  }

  /** What a collection write answers is what it leaves. */
  lemma MutateTracks(codec: Codec, key: Key, was: Option<Entry>, c: Command, now: int)
    requires c.Mutate?
    ensures
      var out := Entries.Apply(codec, key, was, c, now);
      if out.reply.Primitive? && out.reply.subject.Some? then out.entry == out.reply.subject
      else (out.entry == was || (out.entry == None && was.Some? && Expired(was.value, now))) && (out.reply.Primitive? || out.reply.Failed?)
  {
    hide Loaded, Pushed, Popped, BitSet, Overwritten, NewEntry, Expired;
  }

  lemma ItemElsewhere(w: World, m: map<Key, Entry>, last: map<Key, Entry>, key: Key, c: Command, now: int, k: Key)
    requires k != key
    ensures
      var out := Entries.Apply(w.codec, key, Lookup(m, key), c, now);
      Lookup(Put(m, key, out.entry), k) == Lookup(m, k) && Lookup(LastAfter(last, key, c, out.reply, now), k) == Lookup(last, k)
  {
    hide Entries.Apply;
  }

  lemma ReadableByLookup(a: map<Key, Entry>, b: map<Key, Entry>, k: Key, now: int)
    requires Lookup(a, k) == Lookup(b, k)
    ensures Readable(a, k, now) == Readable(b, k, now)
  {
  }

  lemma {:induction false} ServeTracks(w: World, m: map<Key, Entry>, last: map<Key, Entry>, frame: seq<Item>, now: int, k: Key)
    requires forall i :: 0 <= i < |frame| ==> ClientCommand(frame[i].command)
    requires Readable(m, k, now) == Readable(last, k, now)
    ensures Readable(Serve(w, m, last, frame, now).0, k, now) == Readable(Serve(w, m, last, frame, now).1, k, now)
    decreases frame
  {
    hide Entries.Apply, LastAfter, Readable;
    if frame != [] {
      var item := frame[0];
      var out := Entries.Apply(w.codec, item.key, Lookup(m, item.key), item.command, now);
      var next, told := Put(m, item.key, out.entry), LastAfter(last, item.key, item.command, out.reply, now);
      if item.key == k {
        ItemTracks(w, m, last, k, item.command, now);
      } else {
        ItemElsewhere(w, m, last, item.key, item.command, now, k);
        ReadableByLookup(next, m, k, now);
        ReadableByLookup(told, last, k, now);
      }
      ServeTracks(w, next, told, frame[1..], now, k);
    }
  }

  /** A frame that does not name a key leaves it alone. */
  lemma {:induction false} ServeElsewhere(w: World, m: map<Key, Entry>, last: map<Key, Entry>, frame: seq<Item>, now: int, k: Key)
    requires forall i :: 0 <= i < |frame| ==> frame[i].key != k
    ensures Lookup(Serve(w, m, last, frame, now).0, k) == Lookup(m, k)
    ensures Lookup(Serve(w, m, last, frame, now).1, k) == Lookup(last, k)
    decreases frame
  {
    hide Entries.Apply, LastAfter, Lookup;
    if frame != [] {
      var item := frame[0];
      var out := Entries.Apply(w.codec, item.key, Lookup(m, item.key), item.command, now);
      ItemElsewhere(w, m, last, item.key, item.command, now, k);
      ServeElsewhere(w, Put(m, item.key, out.entry), LastAfter(last, item.key, item.command, out.reply, now), frame[1..], now, k);
    }
  }

  // ---------------------------------------------------------------- fading: reads and sweeps

  /** At `k` the only changes are read bookkeeping and the removal of an expired entry. */
  ghost predicate Faded(before: map<Key, Entry>, after: map<Key, Entry>, k: Key, now: int) {
    FadedTo(Lookup(before, k), Lookup(after, k), now)
  }

  lemma FadedTrans(a: map<Key, Entry>, b: map<Key, Entry>, c: map<Key, Entry>, k: Key, now: int)
    requires Faded(a, b, k, now) && Faded(b, c, k, now)
    ensures Faded(a, c, k, now)
  {
    assert k in a && k in b ==> a[k].expireAt == View(a[k]).expireAt && b[k].expireAt == View(b[k]).expireAt;
  }

  lemma FadedReadable(a: map<Key, Entry>, b: map<Key, Entry>, k: Key, now: int)
    requires Faded(a, b, k, now)
    ensures Readable(a, k, now) == Readable(b, k, now)
  {
    assert k in a && k in b ==> a[k].expireAt == View(a[k]).expireAt && b[k].expireAt == View(b[k]).expireAt;
  }

  lemma ReadFades(m: map<Key, Entry>, key: Key, lookup: GetOptions, now: int, k: Key)
    ensures Faded(m, ReadAt(m, key, lookup, now), k, now)
  {
  }

  lemma SweepFades(m: map<Key, Entry>, now: int, k: Key)
    ensures Faded(m, Rejected(m, ExpiredAt(now)), k, now)
  {
  }

  lemma FadedSame(a: map<Key, Entry>, b: map<Key, Entry>, k: Key, now: int)
    requires Lookup(a, k) == Lookup(b, k)
    ensures Faded(a, b, k, now)
  {
  }

  /** What harmless requests leave under a key of the fenced range: between export and cutover
      nothing but faded entries, and otherwise an entry the next export can bring over. */
  ghost predicate KeptUp(s: State, m: map<Key, Entry>, k: Key) {
    && (s.executor.AtImport? || s.executor.AtCutover? ==> Faded(s.source, m, k, s.clock))
    && CatchesUp(s.(source := m), k)
  }

  lemma HarmlessKeepsUp(s: State, m: map<Key, Entry>, k: Key, after: Option<Entry>)
    requires KeptUp(s, m, k) && Harmless(s, k, Lookup(m, k), after)
    ensures KeptUp(s, Put(m, k, after), k)
  {
    var next := Put(m, k, after);
    if FadedTo(Lookup(m, k), after, s.clock) {
      if s.executor.AtImport? || s.executor.AtCutover? { FadedTrans(s.source, m, next, k, s.clock); }
      FadedCatchesUp(s, m, next, k);
    }
  }

  lemma FadedCatchesUp(s: State, m: map<Key, Entry>, next: map<Key, Entry>, k: Key)
    requires CatchesUp(s.(source := m), k) && Faded(m, next, k, s.clock)
    ensures CatchesUp(s.(source := next), k)
  {
    SameExpiry();
  }

  lemma {:induction false} ServeKeepsUp(w: World, s: State, m: map<Key, Entry>, last: map<Key, Entry>, frame: seq<Item>, k: Key)
    requires InMove(w, k) && HarmlessFrame(w, s, m, frame) && KeptUp(s, m, k)
    ensures KeptUp(s, Serve(w, m, last, frame, s.clock).0, k)
    decreases frame
  {
    hide Entries.Apply, LastAfter, KeptUp, Harmless;
    if frame != [] {
      var item := frame[0];
      var out := Entries.Apply(w.codec, item.key, Lookup(m, item.key), item.command, s.clock);
      var next, told := Put(m, item.key, out.entry), LastAfter(last, item.key, item.command, out.reply, s.clock);
      if item.key == k {
        HarmlessKeepsUp(s, m, k, out.entry);
      } else {
        KeptUpByLookup(s, m, next, k);
      }
      ServeKeepsUp(w, s, next, told, frame[1..], k);
    }
  }

  lemma KeptUpByLookup(s: State, a: map<Key, Entry>, b: map<Key, Entry>, k: Key)
    requires KeptUp(s, a, k) && Lookup(a, k) == Lookup(b, k)
    ensures KeptUp(s, b, k)
  {
  }

  /** Behind a fence only reads and bitmap writes of the range get through. */
  lemma FenceBlocks(w: World, fences: seq<Fence>, frame: seq<Item>, k: Key)
    requires w.range in fences && InMove(w, k) && !FencedFrame(w.slot, fences, frame)
    requires forall i :: 0 <= i < |frame| ==> ClientCommand(frame[i].command)
    ensures forall i :: 0 <= i < |frame| && frame[i].key == k ==>
              frame[i].command.Get? || (frame[i].command.Mutate? && frame[i].command.mutation.SetBit?)
  {
    var j :| 0 <= j < |fences| && fences[j] == w.range;
    forall i | 0 <= i < |frame| && frame[i].key == k ensures !FenceChecked(frame[i].command) {
      assert KeyInRange(w.slot, frame[i].key, fences[j]);
    }
  }

  lemma {:induction false} ServeFiled(w: World, m: map<Key, Entry>, last: map<Key, Entry>, frame: seq<Item>, now: int)
    requires WellFiled(m)
    ensures WellFiled(Serve(w, m, last, frame, now).0)
    decreases frame
  {
    hide Entries.Apply, LastAfter, EntryFor;
    if frame != [] {
      var item := frame[0];
      var out := Entries.Apply(w.codec, item.key, Lookup(m, item.key), item.command, now);
      ApplyKeepsFiling(w.codec, item.key, Lookup(m, item.key), item.command, now);
      ServeFiled(w, Put(m, item.key, out.entry), LastAfter(last, item.key, item.command, out.reply, now), frame[1..], now);
    }
  }

  lemma FadedFiled(before: map<Key, Entry>, after: map<Key, Entry>, now: int)
    requires WellFiled(before) && forall k :: k in after ==> Faded(before, after, k, now)
    ensures WellFiled(after)
  {
    forall k | k in after ensures EntryFor(k, after[k]) {
      assert Faded(before, after, k, now);
      var a, b := View(before[k]), View(after[k]);
      assert a.key == b.key && a.value == b.value && a.costBytes == b.costBytes && a.version == b.version;
    }
  }

  // ---------------------------------------------------------------- what each step keeps

  lemma StartsKeptUp(w: World, s: State, k: Key)
    requires BeforeCutover(w, s) && InMove(w, k)
    ensures KeptUp(s, s.source, k)
  {
    assert s.(source := s.source) == s;
  }

  lemma SourceKeptUp(w: World, s: State, source: map<Key, Entry>)
    requires BeforeCutover(w, s) && forall k :: InMove(w, k) ==> KeptUp(s, source, k)
    ensures BeforeCutover(w, s.(source := source))
  {
    hide KeyInRange, Renews;
    SameExpiry();
    assert forall k :: InMove(w, k) ==> CatchesUp(s.(source := source), k);
  }

  lemma SourceFades(w: World, s: State, source: map<Key, Entry>)
    requires BeforeCutover(w, s) && forall k :: InMove(w, k) ==> Faded(s.source, source, k, s.clock)
    ensures BeforeCutover(w, s.(source := source))
  {
    forall k | InMove(w, k) ensures KeptUp(s, source, k) {
      StartsKeptUp(w, s, k);
      FadedCatchesUp(s, s.source, source, k);
    }
    SourceKeptUp(w, s, source);
  }

  lemma TargetFades(w: World, s: State, target: map<Key, Entry>)
    requires BeforeCutover(w, s) && forall k :: InMove(w, k) ==> Faded(s.target, target, k, s.clock)
    ensures BeforeCutover(w, s.(target := target))
  {
    hide KeyInRange;
    SameExpiry();
    forall k | InMove(w, k) ensures CatchesUp(s.(target := target), k) {
      assert CatchesUp(s, k);
      if k in target { SameViewRenews(s.target[k], target[k]); }
    }
  }

  /** Read bookkeeping has no say in importing and expiring. */
  lemma SameViewRenews(a: Entry, b: Entry)
    requires View(a) == View(b)
    ensures forall source: Entry, at: int :: Renews(a, source, at) <==> Renews(b, source, at)
  {
    assert a.version == View(a).version == b.version && a.updatedAt == View(a).updatedAt == b.updatedAt && a.expireAt == View(a).expireAt == b.expireAt;
  }

  /** Views tell when an entry expires. */
  lemma SameExpiry()
    ensures forall a: Entry, b: Entry, now: int :: View(a) == View(b) ==> (Expired(a, now) <==> Expired(b, now))
  {
    forall a: Entry, b: Entry, now: int | View(a) == View(b) ensures Expired(a, now) <==> Expired(b, now) {
      assert View(a).expireAt == a.expireAt && View(b).expireAt == b.expireAt;
    }
  }

  /** Until the range is fenced nothing has been copied, so writes to the source disturb nothing. */
  lemma SourceWritten(w: World, s: State, source: map<Key, Entry>)
    requires BeforeCutover(w, s) && !Fenced(w, s)
    ensures BeforeCutover(w, s.(source := source))
  {
  }

  lemma LastIgnored(w: World, s: State, last: map<Key, Entry>)
    requires BeforeCutover(w, s)
    ensures BeforeCutover(w, s.(last := last))
  {
  }

  /** What can be brought up to date from now on can be from any later time on. */
  lemma LaterCatchesUp(s: State, t: State, k: Key)
    requires CatchesUp(s, k) && t.source == s.source && t.target == s.target && RetryAt(s) <= RetryAt(t)
    ensures CatchesUp(t, k)
  {
  }

  lemma TickKeeps(w: World, s: State, now: int)
    requires Inv(w, s) && now >= s.clock
    ensures Inv(w, s.(clock := now))
  {
    hide KeyInRange;
    var next := s.(clock := now);
    forall k | RoutesSource(s.task) && InMove(w, k) ensures CatchesUp(next, k) { LaterCatchesUp(s, next, k); }
    forall k | InMove(w, k) ensures Readable(Owner(s), k, now) == Readable(s.last, k, now) {
      assert Readable(Owner(s), k, s.clock) == Readable(s.last, k, s.clock);
      SameExpiry();
    }
    assert NothingLost(w, s.(clock := now));
  }

  lemma ServedByOwner(w: World, s: State, frame: seq<Item>)
    requires Inv(w, s) && Routed(w, s, RoutesSource(s.task), frame)
    requires !FencedFrame(w.slot, if RoutesSource(s.task) then s.sourceFences else s.targetFences, frame)
    ensures Inv(w, ClientStep(w, s, RoutesSource(s.task), frame))
  {
    hide KeyInRange, Readable, BeforeCutover, KeptUp, Serve, FencedFrame, HarmlessFrame;
    var (after, last) := Serve(w, Owner(s), s.last, frame, s.clock);
    ServeFiled(w, Owner(s), s.last, frame, s.clock);
    forall k | InMove(w, k) ensures Readable(after, k, s.clock) == Readable(last, k, s.clock) {
      ServeTracks(w, Owner(s), s.last, frame, s.clock, k);
    }
    if RoutesSource(s.task) {
      if Fenced(w, s) {
        forall k | InMove(w, k) ensures KeptUp(s, after, k) {
          StartsKeptUp(w, s, k);
          ServeKeepsUp(w, s, s.source, s.last, frame, k);
        }
        SourceKeptUp(w, s, after);
      } else {
        SourceWritten(w, s, after);
      }
      LastIgnored(w, s.(source := after), last);
    }
  }

  /** A frame at the other node names no key of the range. */
  lemma ServedElsewhere(w: World, s: State, frame: seq<Item>)
    requires Inv(w, s) && Routed(w, s, !RoutesSource(s.task), frame)
    requires !FencedFrame(w.slot, if RoutesSource(s.task) then s.targetFences else s.sourceFences, frame)
    ensures Inv(w, ClientStep(w, s, !RoutesSource(s.task), frame))
  {
    hide KeyInRange, Readable, BeforeCutover, Faded, Serve, FencedFrame;
    var other := if RoutesSource(s.task) then s.target else s.source;
    var (after, last) := Serve(w, other, s.last, frame, s.clock);
    ServeFiled(w, other, s.last, frame, s.clock);
    forall k | InMove(w, k) ensures Lookup(after, k) == Lookup(other, k) && Lookup(last, k) == Lookup(s.last, k)
                            ensures Readable(last, k, s.clock) == Readable(s.last, k, s.clock) {
      ServeElsewhere(w, other, s.last, frame, s.clock, k);
      ReadableByLookup(last, s.last, k, s.clock);
    }
    if RoutesSource(s.task) {
      forall k | InMove(w, k) ensures Faded(s.target, after, k, s.clock) { FadedSame(s.target, after, k, s.clock); }
      TargetFades(w, s, after);
      LastIgnored(w, s.(target := after), last);
    }
  }

  lemma ClientKeeps(w: World, s: State, atSource: bool, frame: seq<Item>)
    requires Inv(w, s) && Routed(w, s, atSource, frame)
    ensures Inv(w, ClientStep(w, s, atSource, frame))
  {
    hide Inv, Routed, Serve, FencedFrame;
    if !FencedFrame(w.slot, if atSource then s.sourceFences else s.targetFences, frame) {
      if atSource == RoutesSource(s.task) {
        ServedByOwner(w, s, frame);
      } else {
        ServedElsewhere(w, s, frame);
      }
    }
  }

  /** Reads and sweeps on either node. */
  lemma FadingKeeps(w: World, s: State, atSource: bool, before: map<Key, Entry>, after: map<Key, Entry>)
    requires Inv(w, s) && before == (if atSource then s.source else s.target)
    requires forall k :: Faded(before, after, k, s.clock)
    ensures Inv(w, if atSource then s.(source := after) else s.(target := after))
  {
    hide KeyInRange, Readable, BeforeCutover, Faded;
    FadedFiled(before, after, s.clock);
    forall k ensures Readable(before, k, s.clock) == Readable(after, k, s.clock) {
      FadedReadable(before, after, k, s.clock);
    }
    if RoutesSource(s.task) {
      if atSource { SourceFades(w, s, after); } else { TargetFades(w, s, after); }
    }
  }

  lemma FencesKeep(w: World, s: State, source: seq<Fence>, target: seq<Fence>)
    requires Inv(w, s) && (RoutesSource(s.task) && Fenced(w, s) ==> w.range in source)
    ensures Inv(w, s.(sourceFences := source, targetFences := target))
  {
  }

  lemma ExportKeeps(w: World, s: State)
    requires Inv(w, s) && s.executor.AtExport?
    ensures Inv(w, s.(executor := AtImport(Selected(s.source, ExportedBy(w.slot, w.range, s.clock)))))
  {
    hide KeyInRange;
    var snapshot := Selected(s.source, ExportedBy(w.slot, w.range, s.clock));
    assert forall k :: k in s.source ==> s.source[k].key == k;
    assert CopyOf(w, s, snapshot) && Full(w, s, snapshot);
  }

  /** Importing some of an export leaves copies that catch up; importing all of it brings the
      target up to date. Copies that agree in version and update time stay, older ones give way. */
  lemma ImportCopies(w: World, s: State, taken: map<Key, Entry>, executor: Executor)
    requires s.executor.AtImport? && !executor.Idle? && BeforeCutover(w, s)
    requires forall k :: k in taken ==> k in s.executor.snapshot && taken[k] == s.executor.snapshot[k]
    ensures
      var next := s.(target := ImportMap(s.target, taken), executor := executor);
      && (forall k :: InMove(w, k) ==> CatchesUp(next, k))
      && (taken == s.executor.snapshot ==> UpToDate(w, next))
  {
    hide KeyInRange;
    var next := s.(target := ImportMap(s.target, taken), executor := executor);
    forall k | InMove(w, k)
      ensures CatchesUp(next, k)
      ensures k in taken && k in s.source && !Expired(s.source[k], s.clock) ==> View(next.target[k]) == View(s.source[k])
    {
      assert CatchesUp(s, k);
      if k in taken { ImportedCopy(s, k, taken[k]); }
    }
  }

  lemma ImportedCopy(s: State, k: Key, copy: Entry)
    requires CatchesUp(s, k) && !s.executor.Idle?
    requires if k in s.source then View(copy) == View(s.source[k]) else Expired(copy, s.clock)
    ensures
      var after := ImportOver(Lookup(s.target, k), copy).value;
      if k in s.source then View(after) == View(s.source[k]) || (Expired(s.source[k], s.clock) && Renews(after, s.source[k], s.clock))
      else Expired(after, s.clock)
    ensures k in s.source && !Expired(s.source[k], s.clock) ==> View(ImportOver(Lookup(s.target, k), copy).value) == View(s.source[k])
  {
    SameExpiry();
    var c, v := View(copy), View(ImportOver(Lookup(s.target, k), copy).value);
    assert c.version == copy.version && c.updatedAt == copy.updatedAt;
    if k in s.source {
      var x := View(s.source[k]);
      assert x.version == s.source[k].version && x.updatedAt == s.source[k].updatedAt;
    }
  }

  lemma ImportFiled(target: map<Key, Entry>, snapshot: map<Key, Entry>)
    requires WellFiled(target) && WellFiled(snapshot)
    ensures WellFiled(ImportMap(target, snapshot))
  {
    hide EntryFor, ShouldImport;
  }

  lemma ImportKeeps(w: World, s: State, call: Call)
    requires Inv(w, s) && s.executor.AtImport?
    ensures Inv(w, ImportStep(s, s.executor.snapshot, call))
  {
    hide KeyInRange, EntryFor;
    var snapshot := s.executor.snapshot;
    var taken := if call.Lost? then Part(snapshot, call.part) else snapshot;
    assert WellFiled(taken);
    ImportCopies(w, s, taken, if call.Done? then AtCutover else AtFail);
    ImportFiled(s.target, taken);
    assert ImportMap(s.target, taken).Keys == s.target.Keys + taken.Keys;
    if call.NotSent? {
      AdvanceKeeps(w, s, AtFail);
    }
  }

  /** A full copy reads like the source, so handing the range over loses nothing. */
  lemma CutoverKeeps(w: World, s: State, imported: nat, call: Call)
    requires Inv(w, s) && s.executor.AtCutover?
    ensures Inv(w, Next(w, s, Cutover(imported, call)))
  {
    hide KeyInRange, EntryFor;
    if Reached(call) {
      SameExpiry();
      forall k | InMove(w, k) ensures Readable(s.target, k, s.clock) == Readable(s.last, k, s.clock) {
        assert Readable(s.source, k, s.clock) == Readable(s.last, k, s.clock);
      }
    }
  }

  lemma DeleteKeeps(w: World, s: State, call: Call)
    requires Inv(w, s) && s.executor.AtDelete?
    ensures Inv(w, DeleteStep(w, s, s.executor.cleanup, call))
  {
    hide KeyInRange, EntryFor, BeforeCutover;
  }

  lemma TaskKeeps(w: World, s: State, task: Task, executor: Executor)
    requires Inv(w, s) && task.cutoverAtUnix == s.task.cutoverAtUnix
    requires task.state == TaskState.Done || task.state == Cleanup ==> s.task.cutoverAtUnix > 0
    requires task.startedAtUnix >= 0 && (task.state == Running ==> task.startedAtUnix > 0)
    requires RoutesSource(s.task) ==> RetryAt(s) <= RetryAt(s.(task := task, executor := executor))
    requires executor.Idle? || executor.AtFail? || (executor.AtFence? && RoutesSource(task)) || (executor.AtDelete? && task.cutoverAtUnix > 0)
    ensures Inv(w, s.(task := task, executor := executor))
  {
    hide KeyInRange, EntryFor, CatchesUp, RetryAt, CopyOf, Full, UpToDate;
    var next := s.(task := task, executor := executor);
    forall k | RoutesSource(s.task) && InMove(w, k) ensures CatchesUp(next, k) { LaterCatchesUp(s, next, k); }
  }

  lemma AdvanceKeeps(w: World, s: State, executor: Executor)
    requires Inv(w, s) && !s.executor.Idle?
    requires executor.AtFail? || (executor.AtExport? && RoutesSource(s.task) && Fenced(w, s))
      || (executor.AtComplete? && s.task.cutoverAtUnix > 0)
    ensures Inv(w, s.(executor := executor))
  {
    var next := s.(executor := executor);
    assert RetryAt(next) == RetryAt(s);
    hide KeyInRange, EntryFor, CatchesUp, RetryAt, CopyOf, Full, UpToDate;
    forall k | RoutesSource(s.task) && InMove(w, k) ensures CatchesUp(next, k) { LaterCatchesUp(s, next, k); }
  }

  lemma FenceCallKeeps(w: World, s: State, call: Call)
    requires Inv(w, s) && s.executor.AtFence?
    ensures Inv(w, Next(w, s, Fence(call)))
  {
    hide Inv;
    var fences := if Reached(call) then AddFence(s.sourceFences, w.range) else s.sourceFences;
    FencesKeep(w, s, fences, s.targetFences);
    assert RoutesSource(s.task) by { InStepHolds(w, s); }
    AdvanceKeeps(w, s.(sourceFences := fences), if call.Done? then AtExport else AtFail);
  }

  lemma InStepHolds(w: World, s: State)
    requires Inv(w, s)
    ensures InStep(s)
  {
  }

  lemma UnfenceCallKeeps(w: World, s: State, call: Call)
    requires Inv(w, s) && s.executor.AtUnfence?
    ensures Inv(w, Next(w, s, Unfence(call)))
  {
    hide Inv;
    InStepHolds(w, s);
    var fences := if Reached(call) then RemoveFence(s.sourceFences, w.range) else s.sourceFences;
    FencesKeep(w, s, fences, s.targetFences);
    AdvanceKeeps(w, s.(sourceFences := fences), if call.Done? && s.executor.deleted then AtComplete else AtFail);
  }

  lemma OtherFenceKeeps(w: World, s: State, atSource: bool, fence: Fence, up: bool)
    requires Inv(w, s) && (atSource ==> fence != w.range)
    ensures Inv(w, OtherFenceStep(s, atSource, fence, up))
  {
    hide Inv;
    RemovedFences(s.sourceFences, fence, w.range);
    var next := OtherFenceStep(s, atSource, fence, up);
    FencesKeep(w, s, next.sourceFences, next.targetFences);
  }

  /** Every step keeps the invariant. */
  lemma StepKeepsInv(w: World, s: State, a: Action)
    requires Inv(w, s) && Enabled(w, s, a)
    ensures Inv(w, Next(w, s, a))
  {
    hide Inv, ClientStep, Routed, Faded, ImportStep, DeleteStep, OtherFenceStep, RetryAt, MarkRunning, MigrationTasks.Apply, ReadAt;
    match a
    case Tick(now) => TickKeeps(w, s, now);
    case Client(atSource, frame) => ClientKeeps(w, s, atSource, frame);
    case SweepNode(atSource) =>
      var before := if atSource then s.source else s.target;
      forall k ensures Faded(before, Rejected(before, ExpiredAt(s.clock)), k, s.clock) { SweepFades(before, s.clock, k); }
      FadingKeeps(w, s, atSource, before, Rejected(before, ExpiredAt(s.clock)));
    case StaleRead(atSource, key, lookup) =>
      var before := if atSource then s.source else s.target;
      forall k ensures Faded(before, ReadAt(before, key, lookup, s.clock), k, s.clock) { ReadFades(before, key, lookup, s.clock, k); }
      FadingKeeps(w, s, atSource, before, ReadAt(before, key, lookup, s.clock));
    case OtherFence(atSource, fence, up) => OtherFenceKeeps(w, s, atSource, fence, up);
    case Claim => TaskStepKeeps(w, s, a);
    case Fence(call) => FenceCallKeeps(w, s, call);
    case Export(call) => if call.Done? { ExportKeeps(w, s); } else { AdvanceKeeps(w, s, AtFail); }
    case Import(call) => ImportKeeps(w, s, call);
    case Cutover(imported, call) => CutoverKeeps(w, s, imported, call);
    case DeleteSource(call) => DeleteKeeps(w, s, call);
    case Unfence(call) => UnfenceCallKeeps(w, s, call);
    case Complete(imported, deleted, call) => TaskStepKeeps(w, s, a);
    case Fail(message, retry, call) => TaskStepKeeps(w, s, a);
    case Abandon => TaskStepKeeps(w, s, a);
    case Reap(timeout, retry) => TaskStepKeeps(w, s, a);
  }

  /** Steps that change the task record and leave the executor idle or at its first call. */
  lemma TaskStepKeeps(w: World, s: State, a: Action)
    requires Inv(w, s) && Enabled(w, s, a)
    requires a.Claim? || a.Complete? || a.Fail? || a.Abandon? || a.Reap?
    ensures Inv(w, Next(w, s, a))
  {
    InStepHolds(w, s);
    hide Inv, ClientStep, Routed, ImportStep, DeleteStep, OtherFenceStep;
    var next := Next(w, s, a);
    assert Unix(s.clock) > 0 by { ClockRuns(w, s); }
    TaskKeeps(w, s, next.task, next.executor);
  }

  lemma ClockRuns(w: World, s: State)
    requires Inv(w, s)
    ensures Unix(s.clock) > 0
  {
  }

  // ---------------------------------------------------------------- runs

  ghost predicate Run(w: World, s: State, actions: seq<Action>)
    decreases actions
  {
    actions != [] ==> Enabled(w, s, actions[0]) && Run(w, Next(w, s, actions[0]), actions[1..])
  }

  function Final(w: World, s: State, actions: seq<Action>): State
    decreases actions
  {
    if actions == [] then s else Final(w, Next(w, s, actions[0]), actions[1..])
  }

  lemma {:induction false} RunKeepsInv(w: World, s: State, actions: seq<Action>)
    requires Inv(w, s) && Run(w, s, actions)
    ensures Inv(w, Final(w, s, actions))
    decreases actions
  {
    hide Inv, Enabled, Next;
    if actions != [] {
      StepKeepsInv(w, s, actions[0]);
      RunKeepsInv(w, Next(w, s, actions[0]), actions[1..]);
    }
  }

  /** Migration loses nothing: along every run, with any failures, retries and re-claims, the node
      the routes name holds exactly the last accepted content of each unexpired key of the range. */
  lemma MigrationLosesNothing(w: World, s: State, actions: seq<Action>)
    requires Start(w, s) && Run(w, s, actions)
    ensures NothingLost(w, Final(w, s, actions))
  {
    hide Run, Final, NothingLost, Start;
    StartInv(w, s);
    RunKeepsInv(w, s, actions);
    assert NothingLost(w, Final(w, s, actions)) by { InvMeans(w, Final(w, s, actions)); }
  }

  lemma InvMeans(w: World, s: State)
    requires Inv(w, s)
    ensures NothingLost(w, s)
  {
  }

  /** So a client that reads a key of the range from the routed node sees the last accepted
      content: a hit exactly when there is an unexpired one, with its value and version. */
  lemma ReadsSeeLastAccepted(w: World, s: State, actions: seq<Action>, key: Key)
    requires Start(w, s) && Run(w, s, actions) && InMove(w, key)
    ensures
      var t := Final(w, s, actions);
      var reply := GetOutcome(Lookup(Owner(t), key), GetOptions(0, 0), t.clock).reply;
      match Readable(t.last, key, t.clock)
      case None => reply == Miss
      case Some(e) => reply.Hit? && reply.record.value == e.value && reply.record.version == e.version && reply.record.expireAt == e.expireAt
  {
    MigrationLosesNothing(w, s, actions);
    hide Run, Start, Final, KeyInRange;
    var t := Final(w, s, actions);
    assert Readable(Owner(t), key, t.clock) == Readable(t.last, key, t.clock);
  }
}
