/** Stopping for good: a cancelled reader commits nothing in a later round, and once a shutdown
    has stopped the readers, none ever runs again, unless the manager is started anew. */
module SourceShutdown {
  import opened Text
  import opened SourceLifecycle
  import opened SourceSteps
  import opened SourceRuns

  predicate Ending(s: State, t: nat) { PcOf(s, t).MStop? && PcOf(s, t).job.Shutdown? }

  /** Not running, nobody about to register a reader, and readers left only while t stops them. */
  ghost predicate ShutBy(s: State, t: nat) {
    && !s.running
    && (forall u: nat :: !PcOf(s, u).MBuilt?)
    && (forall r: nat :: Alive(s, r) ==> Ending(s, t))
  }

  /** The step starts nothing, as far as threads t and u and reader r are concerned. */
  predicate StartsNothing(s: State, s': State, t: nat, u: nat, r: nat) {
    && (s'.running ==> s.running)
    && (PcOf(s', u).MBuilt? ==> PcOf(s, u).MBuilt?)
    && (Alive(s', r) ==> Alive(s, r))
    && (Ending(s, t) ==> Ending(s', t))
  }

  /** The states agree on threads and readers. */
  predicate SameAgents(s: State, s': State) {
    s'.threads == s.threads && s'.readers == s.readers && (s'.running ==> s.running)
  }

  lemma {:induction false} MoveStartsNothing(s: State, s': State, v: nat, pc: Pc, t: nat, u: nat, r: nat)
    requires SameAgents(s, s') && !pc.MBuilt? && (v == t && Ending(s, t) ==> pc.MStop? && pc.job.Shutdown?)
    ensures StartsNothing(s, SetPc(s', v, pc), t, u, r)
  {
  }

  lemma {:induction false} ReaderMoveStartsNothing(s: State, s': State, q: nat, pc: ReaderPc, t: nat, u: nat, r: nat)
    requires SameAgents(s, s') && q in s.readers && (Alive(s, q) || pc.RDone?)
    ensures StartsNothing(s, SetRpc(s', q, pc), t, u, r)
  {
  }

  lemma {:induction false} SyncStartsNothing(s: State, a: Action, t: nat, u: nat, r: nat)
    requires Enabled(s, a) && IsSyncStep(a) && !a.RunBegins?
    ensures StartsNothing(s, SyncStep(s, a), t, u, r)
  {
  }

  lemma {:induction false} TakeStartsNothing(s: State, v: nat, id: int, t: nat, u: nat, r: nat)
    requires Enabled(s, Take(v, id))
    ensures StartsNothing(s, StopStep(s, Take(v, id)), t, u, r)
  {
    var s1 := if id in s.runtimes then s.(runtimes := s.runtimes - {id}) else s;
    MoveStartsNothing(s, s1, v, PcOf(StopStep(s, Take(v, id)), v), t, u, r);
  }

  lemma {:induction false} StopsDoneStartsNothing(s: State, v: nat, t: nat, u: nat, r: nat)
    requires Enabled(s, StopsDone(v)) && (v == t ==> !Ending(s, t))
    ensures StartsNothing(s, StopStep(s, StopsDone(v)), t, u, r)
  {
    var pc := PcOf(s, v);
    if pc.job.Update? || pc.job.Delete? {
      assert SameAgents(s, WithLock(s, pc.job.id));
      MoveStartsNothing(s, WithLock(s, pc.job.id), v, MLockWait(pc.job, LockFor(s, pc.job.id)), t, u, r);
    } else if pc.job.Reconcile? {
      MoveStartsNothing(s, s, v, MStart(pc.desired), t, u, r);
    } else {
      MoveStartsNothing(s, s.(mutex := None), v, Idle, t, u, r);
    }
  }

  lemma {:induction false} StopStartsNothing(s: State, a: Action, t: nat, u: nat, r: nat)
    requires Enabled(s, a) && IsStopStep(a) && (a == StopsDone(t) ==> !Ending(s, t))
    ensures StartsNothing(s, StopStep(s, a), t, u, r)
  {
    match a
    case Ask(v, job) => MoveStartsNothing(s, s, v, MWant(job), t, u, r);
    case Enter(v) => EnterStartsNothing(s, v, t, u, r);
    case List(v) => MoveStartsNothing(s, s, v, PcOf(StopStep(s, a), v), t, u, r);
    case ListFail(v) => MoveStartsNothing(s, s.(mutex := None), v, Idle, t, u, r);
    case Take(v, id) => TakeStartsNothing(s, v, id, t, u, r);
    case Cancel(v, q) => assert Alive(StopStep(s, a), r) ==> Alive(s, r);
    case Reap(v, q) => MoveStartsNothing(s, s, v, PcOf(StopStep(s, a), v), t, u, r);
    case StopsDone(v) => StopsDoneStartsNothing(s, v, t, u, r);
  }

  lemma {:induction false} EnterStartsNothing(s: State, v: nat, t: nat, u: nat, r: nat)
    requires PcOf(s, v).MWant?
    ensures StartsNothing(s, EnterStep(s, v), t, u, r)
  {
    var job := PcOf(s, v).job;
    MoveStartsNothing(s, s.(mutex := Some(v), running := s.running && !job.Shutdown?), v, FirstPc(s, job), t, u, r);
  }

  lemma {:induction false} JobStartsNothing(s: State, a: Action, t: nat, u: nat, r: nat)
    requires Enabled(s, a) && IsJobStep(a)
    ensures StartsNothing(s, JobStep(s, a), t, u, r)
  {
    var pc := PcOf(s, a.t);
    match a
    case JobAcquire(v) => MoveStartsNothing(s, Hold(s, pc.l, Thread(v)), v, MLockHeld(pc.job, pc.l), t, u, r);
    case JobCommit(v) => CommitStartsNothing(s, v, t, u, r);
    case JobFail(v) => MoveStartsNothing(s, s, v, MUnlock(pc.job, pc.l, false), t, u, r);
    case JobUnlock(v) => UnlockStartsNothing(s, v, t, u, r);
    case DropLock(v) => MoveStartsNothing(s, s.(locks := s.locks - {pc.id}, mutex := None), v, Idle, t, u, r);
  }

  lemma {:induction false} CommitStartsNothing(s: State, v: nat, t: nat, u: nat, r: nat)
    requires Enabled(s, JobCommit(v))
    ensures StartsNothing(s, JobStep(s, JobCommit(v)), t, u, r)
  {
    var pc := PcOf(s, v);
    MoveStartsNothing(s, CommitConfig(s, pc.job), v, MUnlock(pc.job, pc.l, true), t, u, r);
  }

  lemma {:induction false} UnlockStartsNothing(s: State, v: nat, t: nat, u: nat, r: nat)
    requires Enabled(s, JobUnlock(v))
    ensures StartsNothing(s, JobStep(s, JobUnlock(v)), t, u, r)
  {
    var pc := PcOf(s, v);
    var s1 := Free(s, pc.l);
    if pc.job.Update? {
      MoveStartsNothing(s, s1, v, MList(Some(pc.job.id), true), t, u, r);
    } else if pc.job.Delete? && pc.ok {
      MoveStartsNothing(s, s1, v, MDrop(pc.job.id), t, u, r);
    } else {
      MoveStartsNothing(s, s1.(mutex := None), v, Idle, t, u, r);
    }
  }

  lemma {:induction false} StartStartsNothing(s: State, a: Action, t: nat, u: nat, r: nat)
    requires Enabled(s, a) && IsStartStep(a) && !s.running && !a.Register?
    ensures StartsNothing(s, StartStep(s, a), t, u, r)
  {
  }

  lemma {:induction false} ReaderStartsNothing(s: State, a: Action, t: nat, u: nat, r: nat)
    requires Enabled(s, a) && IsReaderStep(a)
    ensures StartsNothing(s, ReaderStep(s, a), t, u, r)
  {
    var q := a.r;
    var pc := RpcOf(s, q);
    if a.ReaderBegin? {
      var id := s.readers[q].id;
      assert SameAgents(s, WithLock(s, id));
      ReaderMoveStartsNothing(s, WithLock(s, id), q, RWait(LockFor(s, id)), t, u, r);
    } else if a.ReaderAcquire? {
      ReaderMoveStartsNothing(s, Hold(s, pc.l, ReaderAgent(q)), q, RHold(pc.l), t, u, r);
    } else if a.ReaderRelease? {
      ReaderMoveStartsNothing(s, Free(s, pc.l), q, RIdle, t, u, r);
    } else if a.ReaderApply? {
      var reader := s.readers[q];
      ReaderMoveStartsNothing(s, Record(s, reader.id, FromReader(reader.row, reader.dsn)), q,
                              RPubWait(pc.l, pc.n - 1), t, u, r);
    } else {
      ReaderMoveStartsNothing(s, s, q, RpcOf(ReaderStep(s, a), q), t, u, r);
    }
  }

  lemma {:induction false} PublishStartsNothing(s: State, a: Action, t: nat, u: nat, r: nat)
    requires Enabled(s, a) && IsPublishStep(a)
    ensures StartsNothing(s, PublishStep(s, a), t, u, r)
  {
    if a.AskPublish? {
      MoveStartsNothing(s, s, a.t, PubWait, t, u, r);
    } else if a.TakeMap? {
      MoveStartsNothing(s, s.(publishing := Some(Thread(a.t))), a.t, InMap(PcOf(s, a.t)), t, u, r);
    } else if a.LeaveMap? {
      MoveStartsNothing(s, s.(publishing := None), a.t, AfterMap(PcOf(s, a.t)), t, u, r);
    } else {
      var publishing := if a.ReaderTakeMap? then Some(ReaderAgent(a.r)) else None;
      ReaderMoveStartsNothing(s, s.(publishing := publishing), a.r, RpcOf(PublishStep(s, a), a.r), t, u, r);
    }
  }

  lemma {:induction false} StepStartsNothing(s: State, a: Action, t: nat, u: nat, r: nat)
    requires Enabled(s, a) && !s.running && !a.RunBegins? && !a.Register? && (a == StopsDone(t) ==> !Ending(s, t))
    ensures StartsNothing(s, Step(s, a), t, u, r)
  {
    if IsSyncStep(a) {
      SyncStartsNothing(s, a, t, u, r);
    } else if IsStopStep(a) {
      StopStartsNothing(s, a, t, u, r);
    } else if IsJobStep(a) {
      JobStartsNothing(s, a, t, u, r);
    } else if IsStartStep(a) {
      StartStartsNothing(s, a, t, u, r);
    } else if IsReaderStep(a) {
      ReaderStartsNothing(s, a, t, u, r);
    } else {
      PublishStartsNothing(s, a, t, u, r);
    }
  }

  /** The shutdown itself goes on only when no reader is left. */
  lemma {:induction false} StopsDoneShut(s: State, t: nat)
    requires Sound(s) && ShutBy(s, t) && Enabled(s, StopsDone(t)) && Ending(s, t)
    ensures ShutBy(Leave(s, t), t)
  {
    forall u: nat ensures !PcOf(Leave(s, t), u).MBuilt? {
      assert !PcOf(s, u).MBuilt?;
    }
    forall r: nat ensures !Alive(Leave(s, t), r) {
      assert ThreadOk(s, t, PcOf(s, t)) && ReaderOk(s, r);
      if Alive(s, r) {
        NoneLeft(s, t, r);
      }
    }
  }

  lemma {:induction false} StepKeepsShut(s: State, a: Action, t: nat)
    requires Sound(s) && ShutBy(s, t) && Enabled(s, a) && !a.RunBegins?
    ensures ShutBy(Step(s, a), t)
  {
    if a == StopsDone(t) && Ending(s, t) {
      StopsDoneShut(s, t);
    } else {
      var s' := Step(s, a);
      StepStartsNothing(s, a, t, t, 0);
      forall u: nat ensures !PcOf(s', u).MBuilt? {
        StepStartsNothing(s, a, t, u, 0);
      }
      forall r: nat ensures Alive(s', r) ==> Ending(s', t) {
        StepStartsNothing(s, a, t, t, r);
      }
    }
  }

  lemma {:induction false} RunKeepsShut(s: State, actions: seq<Action>, s': State, t: nat)
    requires Sound(s) && ShutBy(s, t) && Reaches(s, actions, s')
    requires forall i :: 0 <= i < |actions| ==> !actions[i].RunBegins?
    ensures ShutBy(s', t)
    decreases |actions|
  {
    if |actions| > 0 {
      StepOk(s, actions[0]);
      StepKeepsShut(s, actions[0], t);
      RunKeepsShut(Step(s, actions[0]), actions[1..], s', t);
    }
  }

  lemma {:induction false} EntersShut(s: State, t: nat)
    requires Sound(s) && Enabled(s, Enter(t)) && PcOf(s, t).job.Shutdown?
    ensures ShutBy(Step(s, Enter(t)), t)
  {
    var s' := Step(s, Enter(t));
    forall u: nat ensures !PcOf(s', u).MBuilt? {
      assert ThreadOk(s, u, PcOf(s, u));
    }
  }

  // ---------- Cancelled readers ----------

  /** A cancelled reader that is not past its look at the context. */
  predicate OutOf(s: State, r: nat) {
    && r in s.readers && s.readers[r].cancelled
    && (s.readers[r].pc.RIdle? || s.readers[r].pc.RWait? || s.readers[r].pc.RHold? || s.readers[r].pc.RDone?)
  }

  /** Steps that are not the reader's own leave it where it is; cancelling it changes nothing more. */
  lemma {:induction false} OthersLeaveOut(s: State, a: Action, r: nat)
    requires OutOf(s, r) && r < s.nextReader && Enabled(s, a) && !(IsReaderStep(a) && a.r == r)
    ensures OutOf(Step(s, a), r)
  {
    if IsSyncStep(a) {
      assert SyncStep(s, a).readers == s.readers;
    } else if IsStopStep(a) {
      StopLeavesOut(s, a, r);
    } else if IsJobStep(a) {
      JobLeavesReaders(s, a);
    } else if IsStartStep(a) {
      StartLeavesOut(s, a, r);
    } else if IsReaderStep(a) {
      ReaderLeavesOthers(s, a, r);
    } else {
      PublishLeavesOut(s, a, r);
    }
  }

  lemma {:induction false} StopLeavesOut(s: State, a: Action, r: nat)
    requires OutOf(s, r) && Enabled(s, a) && IsStopStep(a)
    ensures OutOf(StopStep(s, a), r)
  {
    if a.StopsDone? {
      var job := PcOf(s, a.t).job;
      assert IsConfigJob(job) ==> WithLock(s, job.id).readers == s.readers;
    }
    assert !a.Cancel? ==> StopStep(s, a).readers == s.readers;
  }

  lemma {:induction false} JobLeavesReaders(s: State, a: Action)
    requires Enabled(s, a) && IsJobStep(a)
    ensures JobStep(s, a).readers == s.readers
  {
    if a.JobUnlock? {
      UnlockLeavesReaders(s, a.t);
    } else if a.JobCommit? {
      assert CommitConfig(s, PcOf(s, a.t).job).readers == s.readers;
    }
  }

  lemma {:induction false} UnlockLeavesReaders(s: State, t: nat)
    requires PcOf(s, t).MUnlock?
    ensures JobStep(s, JobUnlock(t)).readers == s.readers
  {
    var pc := PcOf(s, t);
    var s1 := Free(s, pc.l);
    if pc.job.Update? {
      assert JobStep(s, JobUnlock(t)) == SetPc(s1, t, MList(Some(pc.job.id), true));
    } else if pc.job.Delete? && pc.ok {
      assert JobStep(s, JobUnlock(t)) == SetPc(s1, t, MDrop(pc.job.id));
    } else {
      assert JobStep(s, JobUnlock(t)) == Leave(s1, t);
    }
  }

  lemma {:induction false} StartLeavesOut(s: State, a: Action, r: nat)
    requires OutOf(s, r) && r < s.nextReader && Enabled(s, a) && IsStartStep(a)
    ensures OutOf(StartStep(s, a), r)
  {
  }

  lemma {:induction false} ReaderLeavesOthers(s: State, a: Action, r: nat)
    requires r in s.readers && Enabled(s, a) && IsReaderStep(a) && a.r != r
    ensures r in ReaderStep(s, a).readers && ReaderStep(s, a).readers[r] == s.readers[r]
  {
  }

  lemma {:induction false} PublishLeavesOut(s: State, a: Action, r: nat)
    requires OutOf(s, r) && Enabled(s, a) && IsPublishStep(a)
    ensures OutOf(PublishStep(s, a), r)
  {
  }

  /** The reader itself can take its lock, leave it, and end. */
  lemma {:induction false} ReaderStaysOut(s: State, a: Action, r: nat)
    requires OutOf(s, r) && Enabled(s, a) && IsReaderStep(a) && a.r == r
    ensures OutOf(ReaderStep(s, a), r) && a != ReaderApply(r)
  {
    var pc := RpcOf(s, r);
    if a.ReaderBegin? {
      assert WithLock(s, s.readers[r].id).readers == s.readers;
    } else if a.ReaderAcquire? {
      assert ReaderStep(s, a).readers[r].pc == RHold(pc.l);
    } else if a.ReaderRelease? {
      assert ReaderStep(s, a).readers[r].pc == RIdle;
    } else {
      assert a.ReaderExit?;
    }
  }

  lemma {:induction false} StepStaysOut(s: State, a: Action, r: nat)
    requires OutOf(s, r) && r < s.nextReader && Enabled(s, a)
    ensures OutOf(Step(s, a), r) && a != ReaderApply(r)
  {
    if IsReaderStep(a) && a.r == r {
      ReaderStaysOut(s, a, r);
    } else {
      OthersLeaveOut(s, a, r);
    }
  }

  lemma {:induction false} RunStaysOut(s: State, actions: seq<Action>, s': State, r: nat)
    requires Sound(s) && OutOf(s, r) && Reaches(s, actions, s')
    ensures OutOf(s', r) && ReaderApply(r) !in actions
    decreases |actions|
  {
    if |actions| > 0 {
      assert ReaderOk(s, r);
      StepOk(s, actions[0]);
      StepStaysOut(s, actions[0], r);
      RunStaysOut(Step(s, actions[0]), actions[1..], s', r);
    }
  }

  /** A reader that is cancelled before it has looked at its context never commits again. */
  lemma {:induction false} CancelledCommitsNothing(before: seq<Action>, s: State, actions: seq<Action>, s': State,
                                                   r: nat)
    requires Reaches(START, before, s) && Reaches(s, actions, s')
    requires r in s.readers && s.readers[r].cancelled
    requires s.readers[r].pc in {RIdle, RDone} || s.readers[r].pc.RWait? || s.readers[r].pc.RHold?
    ensures ReaderApply(r) !in actions
  {
    ReachesOk(START, before, s);
    RunStaysOut(s, actions, s', r);
  }

  // ---------- Shutdown ----------

  /** After a shutdown has entered the mutex, and until the manager runs again, readers are alive
      only as long as the shutdown is still stopping them. */
  lemma {:induction false} ShutdownIsFinal(before: seq<Action>, s: State, t: nat, actions: seq<Action>, s': State,
                                           r: nat)
    requires Reaches(START, before, s) && Enabled(s, Enter(t)) && PcOf(s, t).job == Shutdown
    requires Reaches(Step(s, Enter(t)), actions, s')
    requires forall i :: 0 <= i < |actions| ==> !actions[i].RunBegins?
    ensures !s'.running
    ensures Alive(s', r) ==> PcOf(s', t).MStop? && PcOf(s', t).job == Shutdown
  {
    ReachesOk(START, before, s);
    StepOk(s, Enter(t));
    EntersShut(s, t);
    RunKeepsShut(Step(s, Enter(t)), actions, s', t);
  }
}
