/** How far the no-loss guarantee reaches: exactly which bitmap writes, which fences do not check,
    and which clocks break it. */
module MigrationExactness {
  import opened Common
  import opened Routing
  import opened MigrationTasks
  import opened Entries
  import opened Removal
  import opened Shards
  import opened Fences
  import opened MigrationProtocol

  /** Whatever happens next, nothing is lost. */
  ghost predicate SafeForever(w: World, s: State) {
    forall actions :: Run(w, s, actions) ==> NothingLost(w, Final(w, s, actions))
  }

  predicate BitmapWrite(c: Command) { c.Mutate? && c.mutation.SetBit? }

  /** What a bitmap write leaves under its key at the source. */
  function Written(w: World, s: State, item: Item): Outcome {
    Entries.Apply(w.codec, item.key, Lookup(s.source, item.key), item.command, s.clock)
  }

  /** A bitmap write that changes something stores a live entry, a version up if there was one. */
  lemma BitmapChange(codec: Codec, key: Key, was: Option<Entry>, c: Command, now: int)
    requires BitmapWrite(c)
    ensures
      var out := Entries.Apply(codec, key, was, c, now);
      !FadedTo(was, out.entry, now) ==>
        && out.entry.Some? && !Expired(out.entry.value, now)
        && out.reply.Primitive? && out.reply.subject == out.entry
        && (was.Some? && !Expired(was.value, now) ==> out.entry.value.version == was.value.version + 1)
  {
    hide Loaded, BitSet, CostOf;
  }

  lemma BitmapPasses(w: World, s: State, item: Item)
    requires BitmapWrite(item.command)
    ensures
      var out := Written(w, s, item);
      Next(w, s, Client(true, [item]))
        == s.(source := Put(s.source, item.key, out.entry), last := LastAfter(s.last, item.key, item.command, out.reply, s.clock))
  {
    hide Entries.Apply, LastAfter, KeyInRange;
    var frame := [item];
    assert !FencedFrame(w.slot, s.sourceFences, frame);
    assert frame[0] == item && frame[1..] == [];
    var out := Written(w, s, item);
    assert Serve(w, s.source, s.last, frame, s.clock)
        == Serve(w, Put(s.source, item.key, out.entry), LastAfter(s.last, item.key, item.command, out.reply, s.clock), [], s.clock);
  }

  lemma HarmlessIsSafe(w: World, s: State, item: Item)
    requires Inv(w, s) && RoutesSource(s.task) && BitmapWrite(item.command) && HarmlessItem(w, s, s.source, item)
    ensures SafeForever(w, Next(w, s, Client(true, [item])))
  {
    hide Inv, HarmlessItem, ClientStep, Run, Final, NothingLost;
    var frame := [item];
    assert HarmlessFrame(w, s, s.source, frame) by { assert frame[0] == item && frame[1..] == []; }
    assert Enabled(w, s, Client(true, frame));
    StepKeepsInv(w, s, Client(true, frame));
    var next := Next(w, s, Client(true, frame));
    forall actions | Run(w, next, actions) ensures NothingLost(w, Final(w, next, actions)) {
      RunKeepsInv(w, next, actions);
      InvMeans(w, Final(w, next, actions));
    }
  }

  // ---------------------------------------------------------------- continuations

  lemma {:induction false} RunConcat(w: World, s: State, a: seq<Action>, b: seq<Action>)
    requires Run(w, s, a) && Run(w, Final(w, s, a), b)
    ensures Run(w, s, a + b) && Final(w, s, a + b) == Final(w, Final(w, s, a), b)
    decreases a
  {
    hide Enabled, Next;
    if a == [] {
      assert a + b == b;
    } else {
      assert (a + b)[1..] == a[1..] + b;
      RunConcat(w, Next(w, s, a[0]), a[1..], b);
    }
  }

  lemma RunOne(w: World, s: State, a: Action)
    requires Enabled(w, s, a)
    ensures Run(w, s, [a]) && Final(w, s, [a]) == Next(w, s, a)
  {
    hide Enabled, Next;
    assert [a][1..] == [];
  }

  /** The same data, later and further along. */
  ghost predicate SameData(s: State, t: State) {
    t.source == s.source && t.target == s.target && t.last == s.last && RoutesSource(t.task)
  }

  lemma ClaimAndFence(w: World, s: State) returns (actions: seq<Action>)
    requires s.executor.Idle? && RoutesSource(s.task) && Claimable(s.task, Unix(s.clock))
    ensures Run(w, s, actions)
    ensures
      var t := Final(w, s, actions);
      t.executor.AtExport? && t.clock == s.clock && SameData(s, t)
  {
    RunOne(w, s, Claim);
    var claimed := Next(w, s, Claim);
    RunOne(w, claimed, Action.Fence(Call.Done));
    RunConcat(w, s, [Claim], [Action.Fence(Call.Done)]);
    actions := [Claim] + [Action.Fence(Call.Done)];
  }

  lemma WaitAndClaim(w: World, s: State) returns (actions: seq<Action>)
    requires s.executor.Idle? && RoutesSource(s.task) && InStep(s)
    ensures Run(w, s, actions)
    ensures
      var t := Final(w, s, actions);
      t.executor.AtExport? && t.clock == RetryAt(s) && SameData(s, t)
  {
    var wait := Tick(RetryAt(s));
    RunOne(w, s, wait);
    var waited := Next(w, s, wait);
    actions := [wait];
    var ready := waited;
    if s.task.state == Running {
      assert Unix((s.task.startedAtUnix + 1) * NANOSECONDS) == s.task.startedAtUnix + 1;
      assert Unix(waited.clock) >= s.task.startedAtUnix + 1;
      var reap := Reap(1, 0);
      RunOne(w, waited, reap);
      RunConcat(w, s, actions, [reap]);
      actions := actions + [reap];
      ready := Next(w, waited, reap);
    } else if s.task.state == TaskState.Failed {
      assert Unix(s.task.nextRetryUnix * NANOSECONDS) == s.task.nextRetryUnix;
      assert Unix(waited.clock) >= s.task.nextRetryUnix;
    }
    var more := ClaimAndFence(w, ready);
    RunConcat(w, s, actions, more);
    actions := actions + more;
  }

  /** From anywhere before the export, the executor can reach it, no later than the task can be retried. */
  lemma ReachExport(w: World, s: State) returns (actions: seq<Action>)
    requires RoutesSource(s.task) && InStep(s) && !s.executor.AtImport? && !s.executor.AtCutover?
    ensures Run(w, s, actions)
    ensures
      var t := Final(w, s, actions);
      t.executor.AtExport? && t.clock == RetryAt(s) && SameData(s, t)
  {
    if s.executor.AtExport? {
      actions := [];
    } else if s.executor.AtFence? {
      var fence := Action.Fence(Call.Done);
      RunOne(w, s, fence);
      actions := [fence];
    } else if s.executor.Idle? {
      actions := WaitAndClaim(w, s);
    } else {
      var fail := Fail([], 0, Call.Done);
      RunOne(w, s, fail);
      var more := ClaimAndFence(w, Next(w, s, fail));
      RunConcat(w, s, [fail], more);
      actions := [fail] + more;
    }
  }

  /** What the target holds under a key once the rest of the migration has gone through at time `at`. */
  lemma FinishAt(w: World, s: State, at: int, k: Key) returns (actions: seq<Action>)
    requires s.executor.AtExport? && RoutesSource(s.task) && s.clock <= at && Unix(at) > 0 && InMove(w, k)
    requires k in s.source ==> s.source[k].key == k
    ensures Run(w, s, actions)
    ensures
      var t := Final(w, s, actions);
      && t.clock == at && t.last == s.last && Owner(t) == t.target
      && Lookup(t.target, k)
         == if k in s.source && !Expired(s.source[k], at) then Some(ImportOver(Lookup(s.target, k), s.source[k]).value) else Lookup(s.target, k)
  {
    hide KeyInRange, ShouldImport;
    var tick, exported, taken, cutover := Tick(at), Export(Call.Done), Import(Call.Done), Cutover(0, Call.Done);
    RunOne(w, s, tick);
    var a := Next(w, s, tick);
    RunOne(w, a, exported);
    var b := Next(w, a, exported);
    RunOne(w, b, taken);
    var c := Next(w, b, taken);
    RunOne(w, c, cutover);
    RunConcat(w, b, [taken], [cutover]);
    RunConcat(w, a, [exported], [taken] + [cutover]);
    RunConcat(w, s, [tick], [exported] + ([taken] + [cutover]));
    actions := [tick] + ([exported] + ([taken] + [cutover]));
    assert k in b.executor.snapshot <==> k in s.source && !Expired(s.source[k], at);
  }

  /** A copy that is not renewed goes wrong at some time from `at` on: either the newer entry is
      refused by the import, or the older copy outlives it. */
  function WrongAt(source: Entry, copy: Entry, at: int): int {
    if source.expireAt.Some? && !Expired(copy, Max(at, source.expireAt.value)) then Max(at, source.expireAt.value) else at
  }

  lemma NotRenewed(copy: Entry, source: Entry, at: int)
    requires !Renews(copy, source, at)
    ensures
      var t := WrongAt(source, copy, at);
      && at <= t
      && (if Expired(source, t) then !Expired(copy, t)
          else !ShouldImport(copy, source) && View(copy) != View(source))
  {
  }

  /** A harmful write before the export is lost, or what it replaced comes back. */
  lemma HarmBeforeExport(w: World, s: State, item: Item) returns (actions: seq<Action>)
    requires Inv(w, s) && RoutesSource(s.task) && InMove(w, item.key) && BitmapWrite(item.command)
    requires !s.executor.AtImport? && !s.executor.AtCutover?
    requires !Harmless(s, item.key, Lookup(s.source, item.key), Written(w, s, item).entry)
    ensures
      var written := Next(w, s, Client(true, [item]));
      Run(w, written, actions) && !NothingLost(w, Final(w, written, actions))
  {
    hide KeyInRange, Entries.Apply, ClientStep;
    var k, out := item.key, Written(w, s, item);
    BitmapChange(w.codec, k, Lookup(s.source, k), item.command, s.clock);
    BitmapPasses(w, s, item);
    FiledWrite(w, s, item);
    var written := Next(w, s, Client(true, [item]));
    var x, copy := out.entry.value, s.target[k];
    assert RetryAt(written) == RetryAt(s);
    var at := WrongAt(x, copy, RetryAt(s));
    NotRenewed(copy, x, RetryAt(s));
    assert Unix(at) > 0 by { assert at >= s.clock; }
    actions := ReachExport(w, written);
    var ready := Final(w, written, actions);
    var more := FinishAt(w, ready, at, k);
    RunConcat(w, written, actions, more);
    actions := actions + more;
    var t := Final(w, ready, more);
    assert Lookup(ready.source, k) == Some(x) && Lookup(ready.target, k) == Some(copy);
    assert Lookup(t.target, k) == Some(copy);
    assert Lookup(t.last, k) == Some(x);
    hide Run, Final;
    assert Readable(Owner(t), k, at) != Readable(t.last, k, at);
  }

  lemma FiledWrite(w: World, s: State, item: Item)
    requires WellFiled(s.source)
    ensures
      var out := Written(w, s, item);
      out.entry.Some? ==> out.entry.value.key == item.key
  {
    hide Entries.Apply;
    ApplyKeepsFiling(w.codec, item.key, Lookup(s.source, item.key), item.command, s.clock);
  }

  /** A write between export and cutover that changes anything is not on the new owner. */
  lemma HarmAfterExport(w: World, s: State, item: Item) returns (actions: seq<Action>)
    requires Inv(w, s) && InMove(w, item.key) && BitmapWrite(item.command)
    requires s.executor.AtImport? || s.executor.AtCutover?
    requires !FadedTo(Lookup(s.source, item.key), Written(w, s, item).entry, s.clock)
    ensures
      var written := Next(w, s, Client(true, [item]));
      Run(w, written, actions) && !NothingLost(w, Final(w, written, actions))
  {
    hide KeyInRange, Entries.Apply, ClientStep;
    var k, out := item.key, Written(w, s, item);
    BitmapChange(w.codec, k, Lookup(s.source, k), item.command, s.clock);
    BitmapPasses(w, s, item);
    var written := Next(w, s, Client(true, [item]));
    var ready, taken := written, Import(Call.Done);
    actions := [];
    var copied := s;
    if s.executor.AtImport? {
      RunOne(w, written, taken);
      StepKeepsInv(w, s, taken);
      ready, copied, actions := Next(w, written, taken), Next(w, s, taken), [taken];
    }
    assert Inv(w, copied) && copied.executor.AtCutover? && ready == copied.(source := written.source, last := written.last);
    CutoverReads(w, copied, k);
    var cutover := Cutover(0, Call.Done);
    RunOne(w, ready, cutover);
    RunConcat(w, written, actions, [cutover]);
    actions := actions + [cutover];
    var t := Next(w, ready, cutover);
    assert Owner(t) == copied.target && Readable(copied.target, k, s.clock) == Readable(s.source, k, s.clock);
    assert Lookup(t.last, k) == out.entry;
    assert Readable(t.last, k, s.clock) == Some(View(out.entry.value));
    assert View(out.entry.value).version == out.entry.value.version;
    hide Run, Final;
  }

  lemma CutoverReads(w: World, s: State, k: Key)
    requires Inv(w, s) && s.executor.AtCutover? && InMove(w, k)
    ensures Readable(s.target, k, s.clock) == Readable(s.source, k, s.clock) && Unix(s.clock) > 0
  {
    hide KeyInRange;
    CutoverKeeps(w, s, 0, Call.Done);
    var t := Next(w, s, Cutover(0, Call.Done));
    assert Readable(t.target, k, t.clock) == Readable(t.last, k, t.clock);
    assert Readable(s.source, k, s.clock) == Readable(s.last, k, s.clock);
  }

  /** In every reachable state, a bitmap write to the fenced range that is still routed to the
      source is safe, whatever happens next, if and only if it is harmless: it changes nothing, or
      it comes before the export and renews the copy an earlier attempt may have left. */
  lemma BitmapWriteIsSafeIff(w: World, start: State, actions: seq<Action>, item: Item)
    requires Start(w, start) && Run(w, start, actions) && BitmapWrite(item.command) && InMove(w, item.key)
    requires RoutesSource(Final(w, start, actions).task) && Fenced(w, Final(w, start, actions))
    ensures
      var s := Final(w, start, actions);
      Harmless(s, item.key, Lookup(s.source, item.key), Written(w, s, item).entry) <==> SafeForever(w, Next(w, s, Client(true, [item])))
  {
    hide Start, Run, Final, Harmless, ClientStep, Entries.Apply, KeyInRange, Inv, NothingLost;
    StartInv(w, start);
    RunKeepsInv(w, start, actions);
    var s := Final(w, start, actions);
    if Harmless(s, item.key, Lookup(s.source, item.key), Written(w, s, item).entry) {
      HarmlessIsSafe(w, s, item);
    } else {
      var more := Harm(w, s, item);
    }
  }

  lemma Harm(w: World, s: State, item: Item) returns (actions: seq<Action>)
    requires Inv(w, s) && RoutesSource(s.task) && InMove(w, item.key) && BitmapWrite(item.command)
    requires !Harmless(s, item.key, Lookup(s.source, item.key), Written(w, s, item).entry)
    ensures
      var written := Next(w, s, Client(true, [item]));
      Run(w, written, actions) && !NothingLost(w, Final(w, written, actions))
  {
    hide Run, Final, ClientStep, Entries.Apply, KeyInRange, Inv, NothingLost;
    if s.executor.AtImport? || s.executor.AtCutover? {
      actions := HarmAfterExport(w, s, item);
    } else {
      actions := HarmBeforeExport(w, s, item);
    }
  }

  // ---------------------------------------------------------------- the clock

  /** The recorded cutover time must not be zero, the value routing reads as "not cut over". At
      clock zero the cutover moves no traffic, and the delete that follows empties the routed node:
      nothing is lost if and only if nothing in the range was readable. */
  lemma ZeroClockLosesTheRange(w: World, s: State, imported: nat)
    requires s.executor.AtCutover? && Unix(s.clock) == 0 && WellFiled(s.source)
    ensures
      var cut := Next(w, s, Cutover(imported, Call.Done));
      var emptied := Next(w, cut, DeleteSource(Call.Done));
      && Enabled(w, s, Cutover(imported, Call.Done)) && Enabled(w, cut, DeleteSource(Call.Done))
      && (NothingLost(w, emptied) <==> forall k :: InMove(w, k) ==> Readable(s.last, k, s.clock) == None)
  {
    hide KeyInRange, EntryFor;
    var emptied := Next(w, Next(w, s, Cutover(imported, Call.Done)), DeleteSource(Call.Done));
    assert Owner(emptied) == emptied.source;
    forall k | InMove(w, k) ensures Readable(emptied.source, k, s.clock) == None {
      assert k in s.source ==> s.source[k].key == k by { KeyOfFiled(s.source, k); }
    }
  }

  lemma KeyOfFiled(m: map<Key, Entry>, k: Key)
    requires WellFiled(m)
    ensures k in m ==> m[k].key == k
  {
  }
}
