/** The replication log: sequence numbers, an append-only outbox, a bounded queue, high-water marks
    and persisted acknowledgements (transport/tcp/server_replication_*.go). Enqueuing and replaying
    are atomic steps and every append to the outbox succeeds. */
module Replication {
  import opened Common

  /** A job and its outbox entry: a command for one target under a sequence number. */
  datatype Job = Job(sequence: nat, target: Text, command: Text)

  datatype State = State(
    capacity: nat, nextSequence: nat, outbox: seq<Job>, queue: seq<Job>, active: Option<Job>,
    queued: map<Text, nat>, acks: map<Text, nat>, disk: map<Text, nat>,
    // what reached its target, and what this incarnation handed over, in order
    delivered: set<Job>, handed: seq<Job>)

  // ---------------------------------------------------------------- the dispatcher's operations

  function RecordQueued(queued: map<Text, nat>, sequence: nat, target: Text): map<Text, nat> {
    if target == [] || sequence == 0 then queued
    else if target !in queued || sequence > queued[target] then queued[target := sequence]
    else queued
  }

  /** `enqueueReplicationJob`: a full queue drops the job. */
  function Push(s: State, job: Job): State {
    if |s.queue| < s.capacity then
      s.(queue := s.queue + [job], queued := RecordQueued(s.queued, job.sequence, job.target), handed := s.handed + [job])
    else s
  }

  function Enqueue(s: State, target: Text, command: Text): State {
    if target == [] then s
    else
      var job := Job(s.nextSequence + 1, target, command);
      Push(s.(nextSequence := s.nextSequence + 1, outbox := s.outbox + [job]), job)
  }

  /** An entry is replayed unless it is acknowledged or already queued in this incarnation. */
  predicate Replayable(acks: map<Text, nat>, queued: map<Text, nat>, e: Job) {
    && e.sequence != 0 && e.target != []
    && !(e.target in acks && e.sequence <= acks[e.target])
    && !(e.target in queued && e.sequence <= queued[e.target])
  }

  predicate ShouldReplay(s: State, e: Job) { Replayable(s.acks, s.queued, e) }

  function Replay(s: State, entries: seq<Job>): State
    decreases entries
  {
    if entries == [] then s else Replay(if ShouldReplay(s, entries[0]) then Push(s, entries[0]) else s, entries[1..])
  }

  function Ack(acks: map<Text, nat>, target: Text, sequence: nat): map<Text, nat> {
    if target == [] || sequence == 0 then acks
    else if target in acks && acks[target] >= sequence then acks
    else acks[target := sequence]
  }

  function MaxSequence(outbox: seq<Job>): nat {
    if outbox == [] then 0
    else Max(MaxSequence(outbox[..|outbox| - 1]), outbox[|outbox| - 1].sequence)
  }

  /** A crash followed by `OpenOutbox`: only the outbox and the saved acks survive. */
  function Restart(s: State): State {
    Replay(Reopened(s), s.outbox)
  }

  function Reopened(s: State): State {
    State(s.capacity, MaxSequence(s.outbox), s.outbox, [], None, map[], s.disk, s.disk, s.delivered, [])
  }

  datatype Action =
    | Submit(target: Text, command: Text)
    | ReplayTick
    | Take
    // a send that failed, though the target may have received it
    | Attempt(arrived: bool)
    // a send that succeeded; saving the ack may fail
    | Succeed(saved: bool)
    | CrashAndOpen

  function Next(s: State, a: Action): State {
    match a
    case Submit(target, command) => Enqueue(s, target, command)
    case ReplayTick => Replay(s, s.outbox)
    case Take => if s.active.None? && s.queue != [] then s.(active := Some(s.queue[0]), queue := s.queue[1..]) else s
    case Attempt(arrived) => if s.active.Some? && arrived then s.(delivered := s.delivered + {s.active.value}) else s
    case Succeed(saved) => if s.active.Some? then Acknowledge(s, s.active.value, saved) else s
    case CrashAndOpen => Restart(s)
  }

  function Acknowledge(s: State, job: Job, saved: bool): State {
    var acks := Ack(s.acks, job.target, job.sequence);
    s.(active := None, delivered := s.delivered + {job}, acks := acks,
       disk := if saved && acks != s.acks then acks else s.disk)
  }

  function Init(capacity: nat): State { State(capacity, 0, [], [], None, map[], map[], map[], {}, []) }

  function Run(s: State, actions: seq<Action>): State
    decreases actions
  {
    if actions == [] then s else Run(Next(s, actions[0]), actions[1..])
  }

  // ---------------------------------------------------------------- numbering and order

  ghost predicate Numbered(s: State) {
    && (forall i :: 0 <= i < |s.outbox| ==> 0 < s.outbox[i].sequence <= s.nextSequence && s.outbox[i].target != [])
    && (forall i, j :: 0 <= i < j < |s.outbox| ==> s.outbox[i].sequence < s.outbox[j].sequence)
    && s.nextSequence == MaxSequence(s.outbox)
  }

  /** Jobs on their way come from the outbox; marks lie within the numbers given out. */
  ghost predicate Sourced(s: State) {
    && (forall j :: j in Pending(s) ==> j in s.outbox) && (forall j :: j in s.handed ==> j in s.outbox)
    && (forall t :: t in s.queued ==> s.queued[t] <= s.nextSequence)
    && (forall t :: t in s.acks ==> s.acks[t] <= s.nextSequence) && (forall t :: t in s.disk ==> s.disk[t] <= s.nextSequence)
  }

  /** What is being sent, then what waits. */
  function Pending(s: State): seq<Job> { (if s.active.Some? then [s.active.value] else []) + s.queue }

  /** In one incarnation the sequences handed to a target strictly increase. */
  ghost predicate Ordered(s: State) {
    && (forall i, j :: 0 <= i < j < |s.handed| && s.handed[i].target == s.handed[j].target ==> s.handed[i].sequence < s.handed[j].sequence)
    && (forall i :: 0 <= i < |s.handed| ==> s.handed[i].target in s.queued && s.handed[i].sequence <= s.queued[s.handed[i].target])
  }

  ghost predicate Sound(s: State) { Numbered(s) && Sourced(s) && Ordered(s) }

  lemma PushKeepsSound(s: State, job: Job)
    requires Sound(s) && job in s.outbox && (job.target in s.queued ==> job.sequence > s.queued[job.target])
    ensures Sound(Push(s, job))
  {
    assert job.sequence > 0 && job.target != [];
  }

  lemma {:induction false} ReplayKeepsSound(s: State, entries: seq<Job>)
    requires Sound(s) && forall e :: e in entries ==> e in s.outbox
    ensures Sound(Replay(s, entries))
    decreases entries
  {
    hide Sound;
    if entries != [] {
      var next := if ShouldReplay(s, entries[0]) then Push(s, entries[0]) else s;
      if ShouldReplay(s, entries[0]) { PushKeepsSound(s, entries[0]); }
      ReplayKeepsSound(next, entries[1..]);
    }
  }

  /** The outbox with one more entry. */
  function Appended(s: State, job: Job): State { s.(nextSequence := job.sequence, outbox := s.outbox + [job]) }

  lemma AppendKeepsSound(s: State, job: Job)
    requires Sound(s) && job.sequence == s.nextSequence + 1 && job.target != []
    ensures Sound(Appended(s, job))
  {
    AppendNumbers(s, job);
    hide Numbered, Ordered, MaxSequence;
    var next := Appended(s, job);
    assert Pending(next) == Pending(s);
    assert forall j :: j in s.outbox ==> j in next.outbox;
    assert Ordered(next) by { SameHanded(s, next); }
  }

  lemma SameHanded(s: State, t: State)
    requires Ordered(s) && s.handed == t.handed && s.queued == t.queued
    ensures Ordered(t)
  {
  }

  lemma AppendNumbers(s: State, job: Job)
    requires Numbered(s) && job.sequence == s.nextSequence + 1 && job.target != []
    ensures Numbered(Appended(s, job))
  {
    assert Appended(s, job).outbox[..|s.outbox|] == s.outbox;
  }

  lemma ReopenKeepsSound(s: State)
    requires Sound(s)
    ensures Sound(Reopened(s))
  {
  }

  lemma SubmitKeepsSound(s: State, target: Text, command: Text)
    requires Sound(s)
    ensures Sound(Enqueue(s, target, command))
  {
    if target != [] {
      var job := Job(s.nextSequence + 1, target, command);
      AppendKeepsSound(s, job);
      QueuedBelow(s, job.target);
      hide Sound, Push;
      assert job in Appended(s, job).outbox;
      PushKeepsSound(Appended(s, job), job);
    }
  }

  lemma QueuedBelow(s: State, target: Text)
    requires Sound(s)
    ensures target in s.queued ==> s.queued[target] <= s.nextSequence
  {
  }

  lemma TakeKeepsSound(s: State)
    requires Sound(s)
    ensures Sound(Next(s, Take))
  {
    assert Pending(Next(s, Take)) == Pending(s);
  }

  lemma SendKeepsSound(s: State, a: Action)
    requires Sound(s) && (a.Attempt? || a.Succeed?)
    ensures Sound(Next(s, a))
  {
    if s.active.Some? {
      assert s.active.value in Pending(s);
      assert forall j :: j in Pending(Next(s, a)) ==> j in Pending(s);
    }
  }

  lemma StepKeepsSound(s: State, a: Action)
    requires Sound(s)
    ensures Sound(Next(s, a))
  {
    hide Sound, Enqueue;
    match a
    case Submit(target, command) => SubmitKeepsSound(s, target, command);
    case ReplayTick => ReplayKeepsSound(s, s.outbox);
    case Take => TakeKeepsSound(s);
    case Attempt(_) => SendKeepsSound(s, a);
    case Succeed(_) => SendKeepsSound(s, a);
    case CrashAndOpen =>
      ReopenKeepsSound(s);
      ReplayKeepsSound(Reopened(s), s.outbox);
  }

  lemma {:induction false} RunKeepsSound(s: State, actions: seq<Action>)
    requires Sound(s)
    ensures Sound(Run(s, actions))
    decreases actions
  {
    hide Sound, Next;
    if actions != [] {
      StepKeepsSound(s, actions[0]);
      RunKeepsSound(Next(s, actions[0]), actions[1..]);
    }
  }

  /** In every run, with drops, failures and restarts, the sequences handed to one target within
      one incarnation strictly increase; in particular none is handed over twice. */
  lemma HandedInOrder(capacity: nat, actions: seq<Action>, i: nat, j: nat)
    requires
      var s := Run(Init(capacity), actions);
      i < j < |s.handed| && s.handed[i].target == s.handed[j].target
    ensures
      var s := Run(Init(capacity), actions);
      s.handed[i].sequence < s.handed[j].sequence
  {
    hide Run;
    RunKeepsSound(Init(capacity), actions);
  }

  // ---------------------------------------------------------------- acknowledgements

  ghost predicate Settled(s: State, e: Job) { e in s.delivered || e in Pending(s) }

  /** An offset covers a target when every outbox entry up to it was delivered. */
  ghost predicate Covered(s: State, marks: map<Text, nat>) {
    forall e :: e in s.outbox && Upto(marks, e) ==> e in s.delivered
  }

  predicate Upto(marks: map<Text, nat>, e: Job) { e.target in marks && e.sequence <= marks[e.target] }

  predicate Before(a: Job, b: Job) { a.target == b.target && a.sequence < b.sequence }

  /** Nothing below a high-water mark was left behind, and nothing on its way has overtaken an
      undelivered entry of its target. */
  ghost predicate NoSkips(s: State) {
    && (forall e :: e in s.outbox && Upto(s.queued, e) ==> Settled(s, e))
    && (forall n, e :: 0 <= n < |Pending(s)| && e in s.outbox && Before(e, Pending(s)[n]) ==> e in s.delivered || e in Pending(s)[..n])
  }

  ghost predicate Honest(s: State) { Sound(s) && NoSkips(s) && Covered(s, s.acks) && Covered(s, s.disk) }

  /** A target has an entry that was neither delivered nor queued: it was dropped earlier. */
  ghost predicate Backlog(s: State, target: Text) {
    exists e :: e in s.outbox && e.target == target && !Settled(s, e)
  }

  /** The one step that lets acknowledgements run ahead: queuing a new command for a target that
      still has a dropped one. */
  ghost predicate Overtakes(s: State, a: Action) {
    a.Submit? && a.target != [] && |s.queue| < s.capacity && Backlog(s, a.target)
  }

  /** Sequence numbers identify outbox entries. */
  lemma SameSequence(s: State, a: Job, b: Job)
    requires Numbered(s) && a in s.outbox && b in s.outbox && a.sequence == b.sequence
    ensures a == b
  {
    var i :| 0 <= i < |s.outbox| && s.outbox[i] == a;
    var j :| 0 <= j < |s.outbox| && s.outbox[j] == b;
  }

  lemma PushKeepsHonest(s: State, job: Job)
    requires Honest(s) && job in s.outbox && (job.target in s.queued ==> job.sequence > s.queued[job.target])
    requires forall e :: e in s.outbox && Before(e, job) ==> Settled(s, e)
    ensures Honest(Push(s, job))
  {
    PushKeepsSound(s, job);
    if |s.queue| < s.capacity {
      var next := Push(s, job);
      assert Pending(next) == Pending(s) + [job];
      hide Sound;
      forall e | e in next.outbox && Upto(next.queued, e) ensures Settled(next, e) {
        if !Upto(s.queued, e) && !Before(e, job) {
          assert e.sequence == job.sequence;
          SameSequence(s, e, job) by { SoundMeans(s); }
        }
      }
      forall n, e | 0 <= n < |Pending(next)| && e in next.outbox && Before(e, Pending(next)[n])
        ensures e in next.delivered || e in Pending(next)[..n]
      {
        if n < |Pending(s)| {
          assert Pending(next)[n] == Pending(s)[n] && Pending(next)[..n] == Pending(s)[..n];
        } else {
          assert Settled(s, e) && Pending(next)[..n] == Pending(s);
        }
      }
    }
  }

  lemma SoundMeans(s: State)
    requires Sound(s)
    ensures Numbered(s)
  {
  }

  /** One entry of a replay, when everything before it is settled or the queue is full. */
  lemma ReplayStep(s: State, i: nat)
    requires Honest(s) && i < |s.outbox|
    requires |s.queue| < s.capacity ==> forall k :: 0 <= k < i ==> Settled(s, s.outbox[k])
    ensures
      var e := s.outbox[i];
      var next := if ShouldReplay(s, e) then Push(s, e) else s;
      && Honest(next) && next.outbox == s.outbox
      && (|s.queue| < s.capacity || !ShouldReplay(s, e) ==> Settled(next, e))
      && (|next.queue| < next.capacity ==> |s.queue| < s.capacity && forall k :: 0 <= k < i + 1 ==> Settled(next, s.outbox[k]))
  {
    hide Sound;
    var e := s.outbox[i];
    SoundMeans(s);
    var next := if ShouldReplay(s, e) then Push(s, e) else s;
    if ShouldReplay(s, e) && |s.queue| < s.capacity {
      forall f | f in s.outbox && Before(f, e) ensures Settled(s, f) {
        var k :| 0 <= k < |s.outbox| && s.outbox[k] == f;
      }
      hide NoSkips, Covered, Numbered;
      PushKeepsHonest(s, e);
      assert Pending(next) == Pending(s) + [e];
      assert forall k :: 0 <= k < i ==> Settled(s, s.outbox[k]) && Settled(next, s.outbox[k]);
    } else if !ShouldReplay(s, e) {
      assert e in s.outbox && (Upto(s.acks, e) || Upto(s.queued, e));
    }
  }

  /** Replaying stops adding once the queue is full, so it never skips an entry. */
  lemma {:induction false} ReplayKeepsHonest(s: State, i: nat)
    requires Honest(s) && i <= |s.outbox|
    requires |s.queue| < s.capacity ==> forall k :: 0 <= k < i ==> Settled(s, s.outbox[k])
    ensures Honest(Replay(s, s.outbox[i..]))
    decreases |s.outbox| - i
  {
    hide Honest, Settled, Push, ShouldReplay;
    if i < |s.outbox| {
      var e := s.outbox[i];
      assert s.outbox[i..][0] == e && s.outbox[i..][1..] == s.outbox[i + 1..];
      ReplayStep(s, i);
      ReplayKeepsHonest(if ShouldReplay(s, e) then Push(s, e) else s, i + 1);
    }
  }

  lemma ReopenKeepsHonest(s: State)
    requires Honest(s)
    ensures Honest(Reopened(s))
  {
    ReopenKeepsSound(s);
    hide Sound;
  }

  lemma AppendKeepsHonest(s: State, job: Job)
    requires Honest(s) && job.sequence == s.nextSequence + 1 && job.target != []
    ensures Honest(Appended(s, job))
  {
    AppendKeepsSound(s, job);
    var next := Appended(s, job);
    assert Pending(next) == Pending(s);
    assert forall e :: e in next.outbox ==> e in s.outbox || e == job;
    forall n | 0 <= n < |Pending(s)| ensures Pending(s)[n].sequence <= s.nextSequence { assert Pending(s)[n] in Pending(s); }
  }

  lemma TakeKeepsHonest(s: State)
    requires Honest(s)
    ensures Honest(Next(s, Take))
  {
    StepKeepsSound(s, Take);
    hide Sound;
    assert Pending(Next(s, Take)) == Pending(s);
  }

  lemma DeliverKeepsHonest(s: State, job: Job)
    requires Honest(s)
    ensures Honest(s.(delivered := s.delivered + {job}))
  {
    assert Pending(s.(delivered := s.delivered + {job})) == Pending(s);
  }

  /** The job being sent is the oldest undelivered one of its target, so its ack is honest. */
  lemma AcknowledgeKeepsHonest(s: State, saved: bool)
    requires Honest(s) && s.active.Some?
    ensures Honest(Acknowledge(s, s.active.value, saved))
  {
    StepKeepsSound(s, Succeed(saved));
    var job := s.active.value;
    var next := Acknowledge(s, job, saved);
    assert Pending(s) == [job] + Pending(next);
    assert Pending(s)[0] == job && job in Pending(s) && Pending(s)[..0] == [];
    SoundMeans(s);
    assert job in s.outbox;
    hide Sound;
    forall e | e in s.outbox && Upto(next.acks, e) ensures e in next.delivered {
      if !Upto(s.acks, e) && !Before(e, job) { SameSequence(s, e, job); }
    }
    forall n, e | 0 <= n < |Pending(next)| && e in next.outbox && Before(e, Pending(next)[n])
      ensures e in next.delivered || e in Pending(next)[..n]
    {
      assert Pending(s)[n + 1] == Pending(next)[n] && Pending(s)[..n + 1] == [job] + Pending(next)[..n];
    }
    forall e | e in next.outbox && Upto(next.queued, e) ensures Settled(next, e) {
      assert Settled(s, e);
    }
  }

  /** Every step keeps acknowledgements honest, except queuing past a dropped entry; and that
      step always lets something overtake. */
  lemma HonestUnlessOvertaken(s: State, a: Action)
    requires Honest(s)
    ensures Honest(Next(s, a)) <==> !Overtakes(s, a)
  {
    hide Sound, NoSkips, Covered;
    match a
    case Submit(target, command) => SubmitExact(s, target, command);
    case ReplayTick =>
      ReplayKeepsHonest(s, 0);
      assert s.outbox[0..] == s.outbox;
    case Take => TakeKeepsHonest(s);
    case Attempt(arrived) => if s.active.Some? && arrived { DeliverKeepsHonest(s, s.active.value); }
    case Succeed(saved) => if s.active.Some? { AcknowledgeKeepsHonest(s, saved); }
    case CrashAndOpen =>
      ReopenKeepsHonest(s);
      ReplayKeepsHonest(Reopened(s), 0);
      assert s.outbox[0..] == s.outbox;
  }

  lemma SubmitExact(s: State, target: Text, command: Text)
    requires Honest(s)
    ensures Honest(Enqueue(s, target, command)) <==> !Overtakes(s, Submit(target, command))
  {
    if target != [] {
      var job := Job(s.nextSequence + 1, target, command);
      var grown := Appended(s, job);
      AppendKeepsHonest(s, job);
      assert Enqueue(s, target, command) == Push(grown, job) && job in grown.outbox;
      assert Pending(grown) == Pending(s);
      if |s.queue| < s.capacity {
        if Backlog(s, target) {
          OvertakingShows(s, job);
        } else {
          forall e | e in grown.outbox && Before(e, job) ensures Settled(grown, e) {
            assert e in s.outbox && Settled(s, e);
          }
          PushKeepsHonest(grown, job);
        }
      }
    }
  }

  lemma OvertakingShows(s: State, job: Job)
    requires Honest(s) && job.sequence == s.nextSequence + 1 && Backlog(s, job.target) && |s.queue| < s.capacity
    ensures !Honest(Push(Appended(s, job), job))
  {
    var e :| e in s.outbox && e.target == job.target && !Settled(s, e);
    var next := Push(Appended(s, job), job);
    var n := |Pending(s)|;
    assert Pending(next) == Pending(s) + [job];
    assert Pending(next)[n] == job && Pending(next)[..n] == Pending(s);
    assert e in next.outbox && Before(e, job);
  }

  // ---------------------------------------------------------------- runs without drops

  ghost predicate AllInHand(s: State) { forall e :: e in s.outbox ==> Settled(s, e) }

  /** Nothing is dropped while these entries are replayed. */
  predicate ReplayFits(s: State, entries: seq<Job>)
    decreases entries
  {
    entries == [] ||
    if ShouldReplay(s, entries[0]) then |s.queue| < s.capacity && ReplayFits(Push(s, entries[0]), entries[1..])
    else ReplayFits(s, entries[1..])
  }

  predicate DropFree(s: State, a: Action) {
    match a
    case Submit(target, _) => target == [] || |s.queue| < s.capacity
    case ReplayTick => ReplayFits(s, s.outbox)
    case CrashAndOpen => ReplayFits(Reopened(s), s.outbox)
    case _ => true
  }

  predicate DropFreeRun(s: State, actions: seq<Action>)
    decreases actions
  {
    actions == [] || (DropFree(s, actions[0]) && DropFreeRun(Next(s, actions[0]), actions[1..]))
  }

  /** A replay that drops nothing leaves every entry settled. */
  lemma {:induction false} ReplaySettles(s: State, i: nat)
    requires Honest(s) && i <= |s.outbox| && ReplayFits(s, s.outbox[i..])
    requires forall k :: 0 <= k < i ==> Settled(s, s.outbox[k])
    ensures AllInHand(Replay(s, s.outbox[i..]))
    decreases |s.outbox| - i
  {
    hide Honest, ShouldReplay;
    if i < |s.outbox| {
      var e := s.outbox[i];
      assert s.outbox[i..][0] == e && s.outbox[i..][1..] == s.outbox[i + 1..];
      ReplayStep(s, i);
      var next := if ShouldReplay(s, e) then Push(s, e) else s;
      if ShouldReplay(s, e) { assert Pending(next) == Pending(s) + [e]; }
      assert forall k :: 0 <= k < i ==> Settled(s, s.outbox[k]) && Settled(next, s.outbox[k]);
      ReplaySettles(next, i + 1);
    }
  }

  lemma SubmitKeepsAll(s: State, target: Text, command: Text)
    requires AllInHand(s) && (target == [] || |s.queue| < s.capacity)
    ensures AllInHand(Enqueue(s, target, command))
  {
    if target != [] {
      var next := Enqueue(s, target, command);
      var job := Job(s.nextSequence + 1, target, command);
      assert Pending(next) == Pending(s) + [job];
      forall e | e in next.outbox ensures Settled(next, e) {
        if e != job { assert Settled(s, e); }
      }
    }
  }

  lemma SendKeepsAll(s: State, a: Action)
    requires AllInHand(s) && (a.Take? || a.Attempt? || a.Succeed?)
    ensures AllInHand(Next(s, a))
  {
    var next := Next(s, a);
    if a.Succeed? && s.active.Some? {
      assert Pending(s) == [s.active.value] + Pending(next);
    } else {
      assert Pending(next) == Pending(s);
    }
    forall e | e in next.outbox ensures Settled(next, e) { assert Settled(s, e); }
  }

  lemma StepKeepsAll(s: State, a: Action)
    requires Honest(s) && AllInHand(s) && DropFree(s, a)
    ensures Honest(Next(s, a)) && AllInHand(Next(s, a))
  {
    assert !Overtakes(s, a);
    HonestUnlessOvertaken(s, a);
    hide Honest, AllInHand, Enqueue;
    match a
    case Submit(target, command) => SubmitKeepsAll(s, target, command);
    case ReplayTick =>
      assert s.outbox[0..] == s.outbox;
      ReplaySettles(s, 0);
    case Take => SendKeepsAll(s, a);
    case Attempt(_) => SendKeepsAll(s, a);
    case Succeed(saved) => SendKeepsAll(s, a);
    case CrashAndOpen =>
      ReopenKeepsHonest(s);
      assert s.outbox[0..] == s.outbox;
      ReplaySettles(Reopened(s), 0);
  }

  lemma {:induction false} RunKeepsAll(s: State, actions: seq<Action>)
    requires Honest(s) && AllInHand(s) && DropFreeRun(s, actions)
    ensures Honest(Run(s, actions)) && AllInHand(Run(s, actions))
    decreases actions
  {
    hide Honest, AllInHand, Next;
    if actions != [] {
      StepKeepsAll(s, actions[0]);
      RunKeepsAll(Next(s, actions[0]), actions[1..]);
    }
  }

  /** If no enqueue is ever dropped, an acknowledged offset means that every outbox entry of the
      target up to it was delivered, across any number of crashes and restarts; this holds of the
      offsets in memory and of those on disk. */
  lemma AcksMeanDelivered(capacity: nat, actions: seq<Action>, e: Job)
    requires DropFreeRun(Init(capacity), actions)
    requires
      var s := Run(Init(capacity), actions);
      e in s.outbox && (Upto(s.acks, e) || Upto(s.disk, e))
    ensures e in Run(Init(capacity), actions).delivered
  {
    hide Run, DropFreeRun, Sound;
    RunKeepsAll(Init(capacity), actions) by { StartHonest(capacity); }
  }

  lemma StartHonest(capacity: nat)
    ensures Honest(Init(capacity)) && AllInHand(Init(capacity))
  {
  }

  /** Runs that may drop but never queue past a dropped entry are just as honest. */
  ghost predicate NeverOvertakes(s: State, actions: seq<Action>)
    decreases actions
  {
    actions == [] || (!Overtakes(s, actions[0]) && NeverOvertakes(Next(s, actions[0]), actions[1..]))
  }

  lemma {:induction false} HonestRun(s: State, actions: seq<Action>)
    requires Honest(s) && NeverOvertakes(s, actions)
    ensures Honest(Run(s, actions))
    decreases actions
  {
    hide Honest, Next, Overtakes;
    if actions != [] {
      HonestUnlessOvertaken(s, actions[0]);
      HonestRun(Next(s, actions[0]), actions[1..]);
    }
  }

  // ---------------------------------------------------------------- overtaking is a false acknowledgement

  /** Only sending: no new command, replay or crash. */
  predicate Sending(actions: seq<Action>) {
    forall i :: 0 <= i < |actions| ==> actions[i].Take? || actions[i].Attempt? || actions[i].Succeed?
  }

  /** However the waiting jobs are sent, every acknowledgement means delivery. */
  ghost predicate AcksStayTrue(s: State) {
    forall actions :: Sending(actions) ==> Covered(Run(s, actions), Run(s, actions).acks)
  }

  /** Send everything that is waiting. */
  function Drain(s: State): seq<Action> {
    (if s.active.Some? then [Succeed(true)] else []) + SendEach(|s.queue|)
  }

  function SendEach(n: nat): seq<Action> { if n == 0 then [] else [Take, Succeed(true)] + SendEach(n - 1) }

  lemma {:induction false} SendEachSends(n: nat)
    ensures Sending(SendEach(n))
  {
    if n > 0 { SendEachSends(n - 1); }
  }

  /** What draining does: it delivers and acknowledges the waiting jobs, and nothing else. */
  ghost predicate Drained(s: State, t: State) {
    && t.outbox == s.outbox && t.delivered == s.delivered + (set j | j in Pending(s))
    && (forall target :: target in s.acks ==> target in t.acks && t.acks[target] >= s.acks[target])
    && (forall j :: j in Pending(s) && j.target != [] ==> j.target in t.acks && t.acks[j.target] >= j.sequence)
  }

  lemma AcknowledgeDrains(s: State)
    requires s.active.Some?
    ensures
      var next := Acknowledge(s, s.active.value, true);
      && next.outbox == s.outbox && next.active.None? && next.queue == s.queue && next.delivered == s.delivered + {s.active.value}
      && (forall target :: target in s.acks ==> target in next.acks && next.acks[target] >= s.acks[target])
      && (s.active.value.target != [] && s.active.value.sequence > 0 ==>
            s.active.value.target in next.acks && next.acks[s.active.value.target] >= s.active.value.sequence)
  {
  }

  lemma {:induction false} QueueDrains(s: State)
    requires s.active.None? && forall j :: j in s.queue ==> j.sequence > 0
    ensures Drained(s, Run(s, SendEach(|s.queue|)))
    decreases |s.queue|
  {
    if s.queue != [] {
      var taken := Next(s, Take);
      var sent := Next(taken, Succeed(true));
      AcknowledgeDrains(taken);
      var rest := SendEach(|s.queue| - 1);
      assert ([Take, Succeed(true)] + rest)[1..] == [Succeed(true)] + rest && ([Succeed(true)] + rest)[1..] == rest;
      assert Run(s, SendEach(|s.queue|)) == Run(sent, rest);
      assert s.queue[0] in s.queue;
      QueueDrains(sent);
      assert Pending(s) == [s.queue[0]] + Pending(sent);
      DrainedBefore(s, sent, s.queue[0], Run(sent, rest));
    }
  }

  lemma DrainedBefore(s: State, sent: State, job: Job, t: State)
    requires Pending(s) == [job] + Pending(sent) && sent.outbox == s.outbox && sent.delivered == s.delivered + {job}
    requires forall target :: target in s.acks ==> target in sent.acks && sent.acks[target] >= s.acks[target]
    requires job.target != [] ==> job.target in sent.acks && sent.acks[job.target] >= job.sequence
    requires Drained(sent, t)
    ensures Drained(s, t)
  {
  }

  lemma DrainDelivers(s: State)
    requires forall j :: j in Pending(s) ==> j.sequence > 0
    ensures Drained(s, Run(s, Drain(s))) && Sending(Drain(s))
  {
    SendEachSends(|s.queue|);
    if s.active.Some? {
      var job := s.active.value;
      var sent := Next(s, Succeed(true));
      AcknowledgeDrains(s);
      assert Drain(s)[0] == Succeed(true) && Drain(s)[1..] == SendEach(|s.queue|);
      assert Pending(s) == [job] + Pending(sent) && job in Pending(s);
      QueueDrains(sent);
      DrainedBefore(s, sent, job, Run(s, Drain(s)));
    } else {
      assert Drain(s) == SendEach(|s.queue|);
      QueueDrains(s);
    }
  }

  /** A command that overtakes a dropped one is acknowledged, and the dropped one with it. */
  lemma OvertakingLies(s: State, a: Action)
    requires Honest(s) && Overtakes(s, a)
    ensures
      var next := Next(s, a);
      var t := Run(next, Drain(next));
      !Covered(t, t.acks)
  {
    var e :| e in s.outbox && e.target == a.target && !Settled(s, e);
    var job := Job(s.nextSequence + 1, a.target, a.command);
    var next := Next(s, a);
    assert Pending(next) == Pending(s) + [job] && next.outbox == s.outbox + [job] && next.delivered == s.delivered;
    forall j | j in Pending(next) ensures j.sequence > 0 {
      if j != job { assert j in Pending(s) && j in s.outbox; }
    }
    DrainDelivers(next);
    var t := Run(next, Drain(next));
    assert job in Pending(next) && e in t.outbox && e.sequence <= s.nextSequence;
    assert e !in t.delivered && Upto(t.acks, e);
  }

  lemma {:induction false} SendingNeverOvertakes(s: State, actions: seq<Action>)
    requires Sending(actions)
    ensures NeverOvertakes(s, actions)
    decreases actions
  {
    hide Next;
    if actions != [] { SendingNeverOvertakes(Next(s, actions[0]), actions[1..]); }
  }

  /** From every honest state and at every capacity: after a step, acknowledgements keep meaning
      delivery while the waiting jobs are sent if and only if the step did not queue a command past
      a dropped one of the same target. */
  lemma AcksStayTrueIff(s: State, a: Action)
    requires Honest(s)
    ensures AcksStayTrue(Next(s, a)) <==> !Overtakes(s, a)
  {
    hide Next, Sending, Run;
    if Overtakes(s, a) {
      OvertakingLies(s, a);
      assert Sending(Drain(Next(s, a))) by { DrainSends(Next(s, a)); }
    } else {
      HonestUnlessOvertaken(s, a);
      var next := Next(s, a);
      forall actions | Sending(actions) ensures Covered(Run(next, actions), Run(next, actions).acks) {
        SendingNeverOvertakes(next, actions);
        HonestRun(next, actions);
      }
    }
  }

  lemma DrainSends(s: State)
    ensures Sending(Drain(s))
  {
    SendEachSends(|s.queue|);
  }

  /** Every run keeps its acknowledgements true, however its waiting jobs are then sent, exactly as
      long as no step of it overtakes. */
  lemma {:induction false} FirstOvertaking(s: State, actions: seq<Action>)
    requires Honest(s) && actions != []
    requires NeverOvertakes(s, actions[..|actions| - 1])
    ensures AcksStayTrue(Run(s, actions)) <==> NeverOvertakes(s, actions)
    decreases actions
  {
    hide Honest, Next, AcksStayTrue, Overtakes;
    if |actions| == 1 {
      assert actions[1..] == [];
      assert Run(s, actions) == Next(s, actions[0]);
      AcksStayTrueIff(s, actions[0]);
    } else {
      assert actions[..|actions| - 1][1..] == actions[1..][..|actions| - 2] && actions[..|actions| - 1][0] == actions[0];
      HonestUnlessOvertaken(s, actions[0]);
      FirstOvertaking(Next(s, actions[0]), actions[1..]);
    }
  }

  /** A concrete run. With room for one job, the second of three commands is dropped, the
      third overtakes it, and its acknowledgement claims the second was delivered. */
  lemma DroppedCommandIsAcknowledged(target: Text, command: Text)
    requires target != []
    ensures
      var send := [Take, Succeed(true)];
      var s := Run(Init(1), [Submit(target, command), Submit(target, command)] + send + [Submit(target, command)] + send + [ReplayTick]);
      var lost := Job(2, target, command);
      lost in s.outbox && Upto(s.acks, lost) && lost !in s.delivered && s.queue == [] && s.active == None
  {
    var submit, send := Submit(target, command), [Take, Succeed(true)];
    var first, second := [submit, submit] + send, [submit] + send + [ReplayTick];
    assert first + second == [submit, submit] + send + [submit] + send + [ReplayTick];
    RunConcat(Init(1), first, second);
    FirstTwo(target, command);
    ThirdOvertakes(target, command);
  }

  /** Two commands for one target; the second finds the queue full, the first is delivered. */
  function AfterTwo(target: Text, command: Text): State {
    var one, two := Job(1, target, command), Job(2, target, command);
    State(1, 2, [one, two], [], None, map[target := 1], map[target := 1], map[target := 1], {one}, [one])
  }

  lemma FirstTwo(target: Text, command: Text)
    requires target != []
    ensures Run(Init(1), [Submit(target, command), Submit(target, command)] + [Take, Succeed(true)]) == AfterTwo(target, command)
  {
    var one, two := Job(1, target, command), Job(2, target, command);
    var submit := Submit(target, command);
    var s1 := State(1, 1, [one], [one], None, map[target := 1], map[], map[], {}, [one]);
    var s2 := s1.(nextSequence := 2, outbox := [one, two]);
    var s3 := s2.(queue := [], active := Some(one));
    assert Next(Init(1), submit) == s1;
    assert Next(s1, submit) == s2;
    assert Next(s2, Take) == s3;
    assert Next(s3, Succeed(true)) == AfterTwo(target, command);
    hide Next, AfterTwo;
    RunThrough(Init(1), [submit, submit] + [Take, Succeed(true)], [s1, s2, s3, AfterTwo(target, command)]);
  }

  lemma ThirdOvertakes(target: Text, command: Text)
    requires target != []
    ensures
      var one, two, three := Job(1, target, command), Job(2, target, command), Job(3, target, command);
      var s := Run(AfterTwo(target, command), [Submit(target, command)] + [Take, Succeed(true)] + [ReplayTick]);
      s.outbox == [one, two, three] && s.acks == map[target := 3] && s.delivered == {one, three} && s.queue == [] && s.active == None
  {
    var one, two, three := Job(1, target, command), Job(2, target, command), Job(3, target, command);
    var submit, s4 := Submit(target, command), AfterTwo(target, command);
    var s5 := s4.(nextSequence := 3, outbox := [one, two, three], queue := [three], queued := map[target := 3], handed := [one, three]);
    var s6 := s5.(queue := [], active := Some(three));
    var s7 := s6.(active := None, delivered := {one, three}, acks := map[target := 3], disk := map[target := 3]);
    assert Next(s4, submit) == s5;
    assert Next(s5, Take) == s6;
    assert Next(s6, Succeed(true)) == s7;
    assert Next(s7, ReplayTick) == s7 by { NothingToReplay(s7, [one, two, three]); }
    hide Next;
    RunThrough(s4, [submit] + [Take, Succeed(true)] + [ReplayTick], [s5, s6, s7, s7]);
  }

  lemma {:induction false} RunConcat(s: State, a: seq<Action>, b: seq<Action>)
    ensures Run(s, a + b) == Run(Run(s, a), b)
    decreases a
  {
    hide Next;
    if a == [] {
      assert a + b == b;
    } else {
      assert (a + b)[1..] == a[1..] + b;
      RunConcat(Next(s, a[0]), a[1..], b);
    }
  }

  lemma {:induction false} NothingToReplay(s: State, entries: seq<Job>)
    requires forall e :: e in entries ==> !ShouldReplay(s, e)
    ensures Replay(s, entries) == s
  {
    if entries != [] { NothingToReplay(s, entries[1..]); }
  }

  lemma {:induction false} RunThrough(s: State, actions: seq<Action>, states: seq<State>)
    requires |states| == |actions| && (actions != [] ==> states[0] == Next(s, actions[0]))
    requires forall i :: 0 < i < |states| ==> states[i] == Next(states[i - 1], actions[i])
    ensures Run(s, actions) == if actions == [] then s else states[|states| - 1]
    decreases actions
  {
    hide Next;
    if actions != [] { RunThrough(states[0], actions[1..], states[1..]); }
  }
}
