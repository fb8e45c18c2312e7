/** The work under way in the life cycle of sources ends: a measure that every
    advancing step lowers. */
module SourceTermination {
  import opened Text
  import opened SourceLifecycle
  import opened SourceSteps
  import opened SourceRuns
  import opened SourceProgress

  // ---------- Work ends ----------

  /** How far a thread is from the end of its work, coarsely. */
  function Phase(pc: Pc): nat {
    match pc
    case Idle => 0
    case SDone(_, _) => 1
    case SPublish(_, _) => 2
    case SPubWait(_, _) => 3
    case SData(_, _, _, _) => 4
    case SKey(_, _, _, _) => 5
    case SRow(_, _, _) => 6
    case SHold(_, _) => 7
    case SWait(_, _) => 8
    case PubHold => 1
    case PubWait => 2
    case MStart(_) => 1
    case MBuilt(_, _, _, _) => 1
    case MDrop(_) => 2
    case MStop(job, _, _, _) => if IsConfigJob(job) then 7 else 2
    case MList(_, _) => 3
    case MUnlock(_, _, _) => 4
    case MLockHeld(_, _) => 5
    case MLockWait(_, _) => 6
    case MWant(_) => 8
  }

  /** How much is left to do within a phase. */
  function Size(pc: Pc): nat {
    match pc
    case MStop(_, todo, taken, _) => 2 * |todo| + |taken|
    case MStart(starts) => 2 * |starts|
    case MBuilt(starts, _, _, _) => 2 * |starts| + 1
    case _ => 0
  }

  function RoundPhase(pc: ReaderPc): nat {
    match pc
    case RDone => 0
    case RIdle => 1
    case RData(_, _) => 2
    case RChecked(_, _) => 2
    case RPubWait(_, _) => 2
    case RPublish(_, _) => 2
    case RReady(_) => 3
    case RHold(_) => 4
    case RWait(_) => 5
  }

  function RoundSize(pc: ReaderPc): nat {
    match pc
    case RData(_, n) => 4 * n + 1
    case RChecked(_, n) => 4 * n
    case RPubWait(_, n) => 4 * n + 3
    case RPublish(_, n) => 4 * n + 2
    case _ => 0
  }

  function Running(s: State, r: nat): nat { if r in s.readers && !s.readers[r].cancelled then 1 else 0 }

  function Sum(f: nat -> nat, n: nat): nat { if n == 0 then 0 else Sum(f, n - 1) + f(n - 1) }

  lemma {:induction false} SumSame(f: nat -> nat, g: nat -> nat, n: nat)
    requires forall i: nat :: i < n ==> f(i) == g(i)
    ensures Sum(f, n) == Sum(g, n)
  {
    if n > 0 {
      SumSame(f, g, n - 1);
    }
  }

  lemma {:induction false} SumLower(f: nat -> nat, g: nat -> nat, n: nat, k: nat)
    requires k < n && g(k) < f(k) && forall i: nat :: i < n && i != k ==> f(i) == g(i)
    ensures Sum(g, n) < Sum(f, n)
  {
    if k == n - 1 {
      SumSame(f, g, n - 1);
    } else {
      SumLower(f, g, n - 1, k);
    }
  }

  /** The work under way, as a tuple to be compared lexicographically: phases of the threads
      below `threads`, what is left in them, readers not yet told to stop, and the rounds of
      the readers. */
  datatype Work = Work(phases: nat, sizes: nat, running: nat, rounds: nat, applies: nat)

  function Phases(s: State): nat -> nat { t => Phase(PcOf(s, t)) }

  function Sizes(s: State): nat -> nat { t => Size(PcOf(s, t)) }

  function Runnings(s: State): nat -> nat { r => Running(s, r) }

  function Rounds(s: State): nat -> nat { r => RoundPhase(RpcOf(s, r)) }

  function Applies(s: State): nat -> nat { r => RoundSize(RpcOf(s, r)) }

  function Left(s: State, threads: nat): Work {
    Work(Sum(Phases(s), threads), Sum(Sizes(s), threads), Sum(Runnings(s), s.nextReader),
         Sum(Rounds(s), s.nextReader), Sum(Applies(s), s.nextReader))
  }

  predicate Less(a: Work, b: Work) {
    || a.phases < b.phases
    || (a.phases == b.phases && a.sizes < b.sizes)
    || (a.phases == b.phases && a.sizes == b.sizes && a.running < b.running)
    || (a.phases == b.phases && a.sizes == b.sizes && a.running == b.running && a.rounds < b.rounds)
    || (a.phases == b.phases && a.sizes == b.sizes && a.running == b.running && a.rounds == b.rounds
       && a.applies < b.applies)
  }

  /** Only thread t has moved, and it is nearer to its end. */
  predicate ThreadNearer(s: State, s': State, t: nat) {
    && s'.threads == s.threads[t := PcOf(s', t)]
    && (Phase(PcOf(s', t)) < Phase(PcOf(s, t))
        || (Phase(PcOf(s', t)) == Phase(PcOf(s, t)) && Size(PcOf(s', t)) < Size(PcOf(s, t))))
  }

  /** No thread and no reader but r has moved, and r is nearer to its end. */
  predicate ReaderNearer(s: State, s': State, r: nat) {
    && s'.threads == s.threads && s'.nextReader == s.nextReader && r in s.readers && r in s'.readers
    && s'.readers == s.readers[r := s'.readers[r]]
    && (Running(s', r) < Running(s, r)
        || (Running(s', r) == Running(s, r)
            && (RoundPhase(RpcOf(s', r)) < RoundPhase(RpcOf(s, r))
                || (RoundPhase(RpcOf(s', r)) == RoundPhase(RpcOf(s, r))
                   && RoundSize(RpcOf(s', r)) < RoundSize(RpcOf(s, r))))))
  }

  lemma {:induction false} ThreadNearerLess(s: State, s': State, t: nat, threads: nat)
    requires t < threads && ThreadNearer(s, s', t)
    ensures Less(Left(s', threads), Left(s, threads))
    ensures forall u: nat :: u >= threads ==> PcOf(s', u) == PcOf(s, u)
  {
    assert forall u: nat :: u != t ==> PcOf(s', u) == PcOf(s, u);
    if Phase(PcOf(s', t)) < Phase(PcOf(s, t)) {
      SumLower(Phases(s), Phases(s'), threads, t);
    } else {
      SumSame(Phases(s), Phases(s'), threads);
      SumLower(Sizes(s), Sizes(s'), threads, t);
    }
  }

  lemma {:induction false} ReaderNearerLess(s: State, s': State, r: nat, threads: nat)
    requires r < s.nextReader && ReaderNearer(s, s', r)
    ensures Less(Left(s', threads), Left(s, threads))
    ensures forall u: nat :: u >= threads ==> PcOf(s', u) == PcOf(s, u)
  {
    assert forall u: nat :: PcOf(s', u) == PcOf(s, u);
    assert forall q: nat :: q != r ==> RpcOf(s', q) == RpcOf(s, q) && Running(s', q) == Running(s, q);
    SumSame(Phases(s), Phases(s'), threads);
    SumSame(Sizes(s), Sizes(s'), threads);
    if Running(s', r) < Running(s, r) {
      SumLower(Runnings(s), Runnings(s'), s.nextReader, r);
    } else {
      SumSame(Runnings(s), Runnings(s'), s.nextReader);
      if RoundPhase(RpcOf(s', r)) < RoundPhase(RpcOf(s, r)) {
        SumLower(Rounds(s), Rounds(s'), s.nextReader, r);
      } else {
        SumSame(Rounds(s), Rounds(s'), s.nextReader);
        SumLower(Applies(s), Applies(s'), s.nextReader, r);
      }
    }
  }

  lemma {:induction false} SyncStepNearer(s: State, a: Action)
    requires Enabled(s, a) && IsSyncStep(a) && Advances(s, a)
    ensures ThreadNearer(s, SyncStep(s, a), a.t)
  {
  }

  /** A thread that moves, whatever else of the state changes. */
  lemma {:induction false} MoveNearer(s: State, s1: State, t: nat, pc: Pc)
    requires s1.threads == s.threads
    requires Phase(pc) < Phase(PcOf(s, t)) || (Phase(pc) == Phase(PcOf(s, t)) && Size(pc) < Size(PcOf(s, t)))
    ensures ThreadNearer(s, SetPc(s1, t, pc), t)
  {
  }

  lemma {:induction false} TakeNearer(s: State, t: nat, id: int)
    requires Enabled(s, Take(t, id))
    ensures ThreadNearer(s, StopStep(s, Take(t, id)), t)
  {
    var pc := PcOf(s, t);
    if id in s.runtimes {
      MoveNearer(s, s.(runtimes := s.runtimes - {id}), t,
          pc.(todo := pc.todo - {id}, taken := pc.taken + {s.runtimes[id]}));
    } else {
      MoveNearer(s, s, t, pc.(todo := pc.todo - {id}));
    }
  }

  lemma {:induction false} ReapNearer(s: State, t: nat, r: nat)
    requires Enabled(s, Reap(t, r))
    ensures ThreadNearer(s, StopStep(s, Reap(t, r)), t)
  {
    MoveNearer(s, s, t, PcOf(s, t).(taken := PcOf(s, t).taken - {r}));
  }

  lemma {:induction false} StopsDoneNearer(s: State, t: nat)
    requires Enabled(s, StopsDone(t))
    ensures ThreadNearer(s, StopStep(s, StopsDone(t)), t)
  {
    var job := PcOf(s, t).job;
    if IsConfigJob(job) {
      MoveNearer(s, WithLock(s, job.id), t, MLockWait(job, LockFor(s, job.id)));
    } else if job.Reconcile? {
      MoveNearer(s, s, t, MStart(PcOf(s, t).desired));
    } else {
      MoveNearer(s, s.(mutex := None), t, Idle);
    }
  }

  lemma {:induction false} ListNearer(s: State, a: Action)
    requires Enabled(s, a) && (a.Enter? || a.List? || a.ListFail?)
    ensures ThreadNearer(s, StopStep(s, a), a.t)
  {
    if a.Enter? {
      var job := PcOf(s, a.t).job;
      MoveNearer(s, s.(mutex := Some(a.t), running := s.running && !job.Shutdown?), a.t, FirstPc(s, job));
    } else if a.List? {
      MoveNearer(s, s, a.t, PcOf(StopStep(s, a), a.t));
    } else {
      MoveNearer(s, s.(mutex := None), a.t, Idle);
    }
  }

  lemma {:induction false} CancelNearer(s: State, t: nat, r: nat)
    requires Enabled(s, Cancel(t, r))
    ensures ReaderNearer(s, StopStep(s, Cancel(t, r)), r)
  {
  }

  lemma {:induction false} JobUnlockNearer(s: State, t: nat)
    requires Enabled(s, JobUnlock(t))
    ensures ThreadNearer(s, JobStep(s, JobUnlock(t)), t)
  {
    var pc := PcOf(s, t);
    if pc.job.Update? {
      MoveNearer(s, Free(s, pc.l), t, MList(Some(pc.job.id), true));
    } else if pc.job.Delete? && pc.ok {
      MoveNearer(s, Free(s, pc.l), t, MDrop(pc.job.id));
    } else {
      MoveNearer(s, Free(s, pc.l).(mutex := None), t, Idle);
    }
  }

  lemma {:induction false} JobStepNearer(s: State, a: Action)
    requires Enabled(s, a) && IsJobStep(a)
    ensures ThreadNearer(s, JobStep(s, a), a.t)
  {
    if a.JobUnlock? {
      JobUnlockNearer(s, a.t);
    } else if a.JobCommit? {
      assert CommitConfig(s, PcOf(s, a.t).job).threads == s.threads;
    }
  }

  lemma MapShrinks(m: map<int, Row>, id: int)
    requires id in m
    ensures |m - {id}| < |m|
  {
    assert (m - {id}).Keys == m.Keys - {id};
    assert |m.Keys| == |m| && |(m - {id}).Keys| == |m - {id}|;
  }

  lemma {:induction false} StartOneNearer(s: State, a: Action)
    requires Enabled(s, a) && (a.StartSkip? || a.StartBuild?)
    ensures ThreadNearer(s, StartStep(s, a), a.t)
  {
    MapShrinks(PcOf(s, a.t).starts, a.id);
    MoveNearer(s, s, a.t, PcOf(StartStep(s, a), a.t));
  }

  lemma {:induction false} StartStepNearer(s: State, a: Action)
    requires Enabled(s, a) && IsStartStep(a)
    ensures ThreadNearer(s, StartStep(s, a), a.t)
  {
    if a.StartSkip? || a.StartBuild? {
      StartOneNearer(s, a);
    } else if a.Register? {
      var pc := PcOf(s, a.t);
      MoveNearer(s, if pc.id in s.runtimes then s else Registering(s, a.t), a.t, MStart(pc.starts));
    } else {
      MoveNearer(s, s.(mutex := None), a.t, Idle);
    }
  }

  /** A reader that moves on within its round, whatever else of the state changes. */
  lemma {:induction false} RoundNearer(s: State, s1: State, r: nat, pc: ReaderPc)
    requires s1.threads == s.threads && s1.nextReader == s.nextReader && s1.readers == s.readers && r in s.readers
    requires RoundPhase(pc) < RoundPhase(RpcOf(s, r))
             || (RoundPhase(pc) == RoundPhase(RpcOf(s, r)) && RoundSize(pc) < RoundSize(RpcOf(s, r)))
    ensures ReaderNearer(s, SetRpc(s1, r, pc), r)
  {
  }

  lemma {:induction false} ReaderStepNearer(s: State, a: Action)
    requires Enabled(s, a) && IsReaderStep(a) && Advances(s, a)
    ensures ReaderNearer(s, ReaderStep(s, a), a.r)
  {
    var pc := RpcOf(s, a.r);
    var reader := s.readers[a.r];
    if a.ReaderAcquire? {
      RoundNearer(s, Hold(s, pc.l, ReaderAgent(a.r)), a.r, RHold(pc.l));
    } else if a.ReaderApply? {
      RoundNearer(s, Record(s, reader.id, FromReader(reader.row, reader.dsn)), a.r, RPubWait(pc.l, pc.n - 1));
    } else if a.ReaderRelease? {
      RoundNearer(s, Free(s, pc.l), a.r, RIdle);
    } else {
      RoundNearer(s, s, a.r, RpcOf(ReaderStep(s, a), a.r));
    }
  }

  lemma {:induction false} MapNearer(s: State, a: Action)
    requires Enabled(s, a) && (a.TakeMap? || a.LeaveMap?)
    ensures ThreadNearer(s, PublishStep(s, a), a.t)
  {
    if a.TakeMap? {
      MoveNearer(s, s.(publishing := Some(Thread(a.t))), a.t, PcOf(PublishStep(s, a), a.t));
    } else {
      MoveNearer(s, s.(publishing := None), a.t, AfterMap(PcOf(s, a.t)));
    }
  }

  lemma {:induction false} ReaderMapNearer(s: State, a: Action)
    requires Enabled(s, a) && (a.ReaderTakeMap? || a.ReaderLeaveMap?)
    ensures ReaderNearer(s, PublishStep(s, a), a.r)
  {
    var pc := RpcOf(s, a.r);
    if a.ReaderTakeMap? {
      RoundNearer(s, s.(publishing := Some(ReaderAgent(a.r))), a.r, RPublish(pc.l, pc.n));
    } else {
      RoundNearer(s, s.(publishing := None), a.r, RData(pc.l, pc.n));
    }
  }

  /** The step is one of a reader. */
  predicate OfReader(a: Action) { IsReaderStep(a) || a.ReaderTakeMap? || a.ReaderLeaveMap? }

  /** The thread that takes a step. */
  lemma {:induction false} StepThreadNearer(s: State, a: Action)
    requires Enabled(s, a) && Advances(s, a) && !a.Cancel? && !OfReader(a)
    ensures ThreadNearer(s, Step(s, a), a.t)
  {
    if IsSyncStep(a) {
      SyncStepNearer(s, a);
    } else if a.Take? {
      TakeNearer(s, a.t, a.id);
    } else if a.Reap? {
      ReapNearer(s, a.t, a.r);
    } else if a.StopsDone? {
      StopsDoneNearer(s, a.t);
    } else if IsStopStep(a) {
      ListNearer(s, a);
    } else if IsJobStep(a) {
      JobStepNearer(s, a);
    } else if IsStartStep(a) {
      StartStepNearer(s, a);
    } else {
      MapNearer(s, a);
    }
  }

  ghost predicate IdleFrom(s: State, threads: nat) { forall t: nat :: t >= threads ==> PcOf(s, t).Idle? }

  lemma {:induction false} ThreadAdvanceLowers(s: State, a: Action, threads: nat)
    requires Enabled(s, a) && Advances(s, a) && !a.Cancel? && !OfReader(a) && IdleFrom(s, threads)
    ensures Less(Left(Step(s, a), threads), Left(s, threads)) && IdleFrom(Step(s, a), threads)
  {
    StepThreadNearer(s, a);
    assert !PcOf(s, a.t).Idle?;
    ThreadNearerLess(s, Step(s, a), a.t, threads);
  }

  lemma {:induction false} ReaderAdvanceLowers(s: State, s': State, r: nat, threads: nat)
    requires Sound(s) && ReaderNearer(s, s', r) && IdleFrom(s, threads)
    ensures Less(Left(s', threads), Left(s, threads)) && IdleFrom(s', threads)
  {
    assert ReaderOk(s, r);
    ReaderNearerLess(s, s', r, threads);
  }

  lemma {:induction false} CancelLowers(s: State, a: Action, threads: nat)
    requires Sound(s) && Enabled(s, a) && a.Cancel? && IdleFrom(s, threads)
    ensures Less(Left(Step(s, a), threads), Left(s, threads)) && IdleFrom(Step(s, a), threads)
  {
    CancelNearer(s, a.t, a.r);
    ReaderAdvanceLowers(s, StopStep(s, a), a.r, threads);
  }

  lemma {:induction false} ReaderMapLowers(s: State, a: Action, threads: nat)
    requires Sound(s) && Enabled(s, a) && (a.ReaderTakeMap? || a.ReaderLeaveMap?) && IdleFrom(s, threads)
    ensures Less(Left(Step(s, a), threads), Left(s, threads)) && IdleFrom(Step(s, a), threads)
  {
    ReaderMapNearer(s, a);
    ReaderAdvanceLowers(s, PublishStep(s, a), a.r, threads);
  }

  lemma {:induction false} RoundLowers(s: State, a: Action, threads: nat)
    requires Sound(s) && Enabled(s, a) && IsReaderStep(a) && Advances(s, a) && IdleFrom(s, threads)
    ensures Less(Left(Step(s, a), threads), Left(s, threads)) && IdleFrom(Step(s, a), threads)
  {
    ReaderStepNearer(s, a);
    ReaderAdvanceLowers(s, ReaderStep(s, a), a.r, threads);
  }

  /** Every step that advances lowers the work left, so no run advances for ever. */
  lemma {:induction false} AdvanceLowers(s: State, a: Action, threads: nat)
    requires Sound(s) && Enabled(s, a) && Advances(s, a) && IdleFrom(s, threads)
    ensures Less(Left(Step(s, a), threads), Left(s, threads)) && IdleFrom(Step(s, a), threads)
  {
    if a.Cancel? {
      CancelLowers(s, a, threads);
    } else if IsReaderStep(a) {
      RoundLowers(s, a, threads);
    } else if a.ReaderTakeMap? || a.ReaderLeaveMap? {
      ReaderMapLowers(s, a, threads);
    } else {
      ThreadAdvanceLowers(s, a, threads);
    }
  }

  lemma {:induction false} ThreadsBounded(threads: set<nat>) returns (n: nat)
    ensures forall t :: t in threads ==> t < n
    decreases |threads|
  {
    if threads == {} {
      n := 0;
    } else {
      var t := Member(threads);
      var m := ThreadsBounded(threads - {t});
      n := if m <= t then t + 1 else m;
      assert forall u :: u in threads ==> u == t || u in threads - {t};
    }
  }

  /** The run takes only steps that advance. */
  ghost predicate Winds(s: State, actions: seq<Action>, s': State)
    decreases |actions|
  {
    if |actions| == 0 then s == s'
    else Enabled(s, actions[0]) && Advances(s, actions[0]) && Winds(Step(s, actions[0]), actions[1..], s')
  }

  lemma {:induction false} WindsDown(s: State, threads: nat) returns (actions: seq<Action>, s': State)
    requires Sound(s) && HoldersOk(s) && IdleFrom(s, threads)
    ensures Winds(s, actions, s') && forall t: nat :: PcOf(s', t).Idle?
    decreases Left(s, threads).phases, Left(s, threads).sizes, Left(s, threads).running,
              Left(s, threads).rounds, Left(s, threads).applies
  {
    if t: nat :| !PcOf(s, t).Idle? {
      SomethingAdvances(s, t);
      var a :| Enabled(s, a) && Advances(s, a);
      StepOk(s, a);
      StepHolders(s, a);
      AdvanceLowers(s, a, threads);
      var rest;
      rest, s' := WindsDown(Step(s, a), threads);
      actions := [a] + rest;
      assert actions[1..] == rest;
    } else {
      actions, s' := [], s;
    }
  }

  /** From every reachable state the work under way can be brought to its end without new work,
      and by AdvanceLowers every way of advancing gets there. */
  lemma {:induction false} WorkEnds(actions: seq<Action>, s: State) returns (more: seq<Action>, s': State)
    requires Reaches(START, actions, s)
    ensures Winds(s, more, s') && forall t: nat :: PcOf(s', t).Idle?
  {
    ReachesHolders(START, actions, s);
    var threads := ThreadsBounded(s.threads.Keys);
    more, s' := WindsDown(s, threads);
  }
}
