/** The dispatcher object. */
module ReplicationDispatch {
  import opened Common
  import opened Replication

  /** Acknowledged offsets, kept in memory and saved to disk as a whole. */
  class AckStore {
    var offsets: map<Text, nat>
    var saved: map<Text, nat>

    constructor (saved: map<Text, nat>)
      ensures this.offsets == saved && this.saved == saved
    {
      this.offsets, this.saved := saved, saved;
    }

    /** `saves` tells whether writing the file succeeds. */
    method Record(target: Text, sequence: nat, saves: bool) returns (ok: bool)
      modifies this
      ensures offsets == Ack(old(offsets), target, sequence)
      ensures saved == if saves && offsets != old(offsets) then offsets else old(saved)
      ensures ok <==> saves || offsets == old(offsets)
    {
      if target == [] || sequence == 0 {
        return true;
      }
      if target in offsets && offsets[target] >= sequence {
        return true;
      }
      offsets := offsets[target := sequence];
      if !saves {
        return false;
      }
      saved := offsets;
      ok := true;
    }
  }

  class Dispatcher {
    const capacity: nat
    const acks: AckStore
    var nextSequence: nat
    var outbox: seq<Job>
    var jobs: seq<Job>
    var active: Option<Job>
    var queued: map<Text, nat>
    ghost var delivered: set<Job>
    ghost var handed: seq<Job>

    ghost function Model(): State
      reads this, acks
    {
      State(capacity, nextSequence, outbox, jobs, active, queued, acks.offsets, acks.saved, delivered, handed)
    }

    /** `OpenOutbox` after a crash: numbering resumes after the largest logged sequence, the saved
        acks are loaded, and the log is replayed. */
    constructor (capacity: nat, outbox: seq<Job>, saved: map<Text, nat>, ghost delivered: set<Job>)
      ensures fresh(acks)
      ensures Model() == Restart(State(capacity, 0, outbox, [], None, map[], map[], saved, delivered, []))
    {
      var store := new AckStore(saved);
      this.capacity, this.acks := capacity, store;
      this.nextSequence, this.outbox, this.jobs, this.active, this.queued := 0, outbox, [], None, map[];
      this.delivered, this.handed := delivered, [];
      new;
      RestoreOutboxSnapshot();
      ReplayOutbox(outbox);
    }

    method RestoreOutboxSnapshot()
      modifies this`nextSequence
      ensures nextSequence == Max(old(nextSequence), MaxSequence(outbox))
    {
      var maxSequence := 0;
      for i := 0 to |outbox|
        invariant maxSequence == MaxSequence(outbox[..i])
      {
        assert outbox[..i + 1][..i] == outbox[..i];
        if outbox[i].sequence > maxSequence {
          maxSequence := outbox[i].sequence;
        }
      }
      assert outbox[..|outbox|] == outbox;
      if maxSequence > nextSequence {
        nextSequence := maxSequence;
      }
    }

    /** A target's mark is the largest sequence queued for it: marking never lowers it, and leaves
        other targets alone. */
    method MarkQueued(sequence: nat, target: Text)
      modifies this`queued
      ensures queued == RecordQueued(old(queued), sequence, target)
      ensures MarkOf(queued, target) == if target == [] then MarkOf(old(queued), target) else Max(MarkOf(old(queued), target), sequence)
      ensures forall t :: t != target ==> MarkOf(queued, t) == MarkOf(old(queued), t)
    {
      if target == [] || sequence == 0 {
        return;
      }
      if target !in queued || sequence > queued[target] {
        queued := queued[target := sequence];
      }
    }

    method EnqueueJob(job: Job)
      modifies this`jobs, this`queued, this`handed
      ensures Model() == Push(old(Model()), job)
    {
      if |jobs| < capacity {
        jobs := jobs + [job];
        handed := handed + [job];
        MarkQueued(job.sequence, job.target);
      }
    }

    method Submit(target: Text, command: Text)
      modifies this
      ensures Model() == Next(old(Model()), Action.Submit(target, command))
    {
      if target == [] {
        return;
      }
      nextSequence := nextSequence + 1;
      var job := Job(nextSequence, target, command);
      outbox := outbox + [job];
      EnqueueJob(job);
    }

    method ReplayOutbox(entries: seq<Job>)
      modifies this`jobs, this`queued, this`handed
      ensures Model() == Replay(old(Model()), entries)
    {
      for i := 0 to |entries|
        invariant Replay(Model(), entries[i..]) == Replay(old(Model()), entries)
      {
        assert entries[i..][1..] == entries[i + 1..];
        if Replayable(acks.offsets, queued, entries[i]) {
          EnqueueJob(entries[i]);
        }
      }
    }

    /** The worker takes the oldest job and sends it, retrying: `failures` says of each failed
        attempt whether it arrived, `done` whether a later one succeeded before shutdown. */
    method SendNext(failures: seq<bool>, done: bool, saves: bool)
      modifies this, acks
      ensures Model() == Run(old(Model()), [Take] + Attempts(failures) + if done then [Succeed(saves)] else [])
    {
      ghost var start := Model();
      if active.None? && jobs != [] {
        active := Some(jobs[0]);
        jobs := jobs[1..];
      }
      ghost var taken := Model();
      assert taken == Next(start, Take);
      RetrySend(failures);
      ghost var tried := Model();
      if done && active.Some? {
        var job := active.value;
        delivered := delivered + {job};
        active := None;
        var ok := acks.Record(job.target, job.sequence, saves);
      }
      assert Model() == if done then Next(tried, Succeed(saves)) else tried;
      hide Next;
      SendSteps(start, failures, done, saves);
    }

    /** The attempts that failed. */
    method RetrySend(failures: seq<bool>)
      modifies this`delivered
      ensures Model() == Run(old(Model()), Attempts(failures))
    {
      for i := 0 to |failures|
        invariant Run(Model(), Attempts(failures[i..])) == Run(old(Model()), Attempts(failures))
      {
        assert Attempts(failures[i..])[1..] == Attempts(failures[i + 1..]);
        if active.Some? && failures[i] {
          delivered := delivered + {active.value};
        }
      }
    }
  }

  lemma SendSteps(start: State, failures: seq<bool>, done: bool, saves: bool)
    ensures
      var tried := Run(Next(start, Take), Attempts(failures));
      Run(start, [Take] + Attempts(failures) + if done then [Succeed(saves)] else [])
        == if done then Next(tried, Succeed(saves)) else tried
  {
    hide Next;
    var finish := if done then [Succeed(saves)] else [];
    RunConcat(start, [Take] + Attempts(failures), finish);
    RunConcat(start, [Take], Attempts(failures));
    assert Run(start, [Take]) == Next(start, Take) by { assert [Take][1..] == []; }
    assert finish != [] ==> finish[1..] == [];
  }

  function Attempts(failures: seq<bool>): seq<Action> {
    seq(|failures|, i requires 0 <= i < |failures| => Attempt(failures[i]))
  }

  function MarkOf(queued: map<Text, nat>, target: Text): nat { if target in queued then queued[target] else 0 }
}
