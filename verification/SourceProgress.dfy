/** No interleaving of synchronisations, readers, updates and deletions deadlocks. */
module SourceProgress {
  import opened Text
  import opened SourceLifecycle
  import opened SourceSteps
  import opened SourceRuns

  // ---------- Progress ----------

  /** A held lock is held by an agent whose position shows it. */
  ghost predicate HolderOk(s: State, l: LockId) {
    l in s.held ==>
      match s.held[l]
      case Thread(t) => ThreadHolds(PcOf(s, t)) && PcOf(s, t).l == l
      case ReaderAgent(r) => ReaderHolding(RpcOf(s, r)) && RpcOf(s, r).l == l
  }

  ghost predicate HoldersOk(s: State) { forall l: nat :: HolderOk(s, l) }

  lemma {:induction false} SyncStepHolders(s: State, a: Action, l: nat)
    requires HoldersOk(s) && Enabled(s, a) && IsSyncStep(a)
    ensures HolderOk(SyncStep(s, a), l)
  {
    assert HolderOk(s, l);
  }

  /** A thread that holds no lock may move to any position that holds none. */
  lemma {:induction false} MoveHolders(s: State, t: nat, pc: Pc, l: nat)
    requires HolderOk(s, l) && (!ThreadHolds(PcOf(s, t)) || (ThreadHolds(pc) && pc.l == PcOf(s, t).l))
    ensures HolderOk(SetPc(s, t, pc), l)
  {
  }

  lemma {:induction false} StopsDoneHolders(s: State, t: nat, l: nat)
    requires HolderOk(s, l) && Enabled(s, StopsDone(t))
    ensures HolderOk(StopStep(s, StopsDone(t)), l)
  {
    var job := PcOf(s, t).job;
    if IsConfigJob(job) {
      MoveHolders(WithLock(s, job.id), t, MLockWait(job, LockFor(s, job.id)), l);
    } else if job.Reconcile? {
      MoveHolders(s, t, MStart(PcOf(s, t).desired), l);
    } else {
      MoveHolders(s.(mutex := None), t, Idle, l);
    }
  }

  lemma {:induction false} EnterHolders(s: State, t: nat, l: nat)
    requires HolderOk(s, l) && PcOf(s, t).MWant?
    ensures HolderOk(EnterStep(s, t), l)
  {
    var job := PcOf(s, t).job;
    MoveHolders(s.(mutex := Some(t), running := s.running && !job.Shutdown?), t, FirstPc(s, job), l);
  }

  lemma {:induction false} TakeHolders(s: State, t: nat, id: int, l: nat)
    requires HolderOk(s, l) && Enabled(s, Take(t, id))
    ensures HolderOk(StopStep(s, Take(t, id)), l)
  {
    var s1 := if id in s.runtimes then s.(runtimes := s.runtimes - {id}) else s;
    MoveHolders(s1, t, PcOf(StopStep(s, Take(t, id)), t), l);
  }

  lemma {:induction false} StopStepHolders(s: State, a: Action, l: nat)
    requires HoldersOk(s) && Enabled(s, a) && IsStopStep(a)
    ensures HolderOk(StopStep(s, a), l)
  {
    assert HolderOk(s, l);
    match a
    case Ask(t, job) => MoveHolders(s, t, MWant(job), l);
    case Enter(t) => EnterHolders(s, t, l);
    case List(t) => MoveHolders(s, t, PcOf(StopStep(s, a), t), l);
    case ListFail(t) => MoveHolders(s.(mutex := None), t, Idle, l);
    case Take(t, id) => TakeHolders(s, t, id, l);
    case Cancel(t, r) => assert RpcOf(StopStep(s, a), r) == RpcOf(s, r);
    case Reap(t, r) => MoveHolders(s, t, PcOf(StopStep(s, a), t), l);
    case StopsDone(t) => StopsDoneHolders(s, t, l);
  }

  /** Giving a lock back. */
  lemma {:induction false} FreeHolders(s: State, t: nat, pc: Pc, l: nat)
    requires HolderOk(s, l) && ThreadHolds(PcOf(s, t)) && !ThreadHolds(pc)
    ensures HolderOk(SetPc(Free(s, PcOf(s, t).l), t, pc), l)
  {
  }

  lemma {:induction false} CommitHolders(s: State, job: Job, l: nat)
    requires HolderOk(s, l)
    ensures HolderOk(CommitConfig(s, job), l)
  {
  }

  /** Where a job goes from giving its lock back. */
  function Unlocked(pc: Pc): Pc
    requires pc.MUnlock?
  {
    if pc.job.Update? then MList(Some(pc.job.id), true)
    else if pc.job.Delete? && pc.ok then MDrop(pc.job.id)
    else Idle
  }

  lemma {:induction false} UnlockedStep(s: State, t: nat)
    requires PcOf(s, t).MUnlock?
    ensures var pc := PcOf(s, t);
      JobStep(s, JobUnlock(t)) == SetPc(Free(s, pc.l), t, Unlocked(pc))
          .(mutex := if Unlocked(pc) == Idle then None else s.mutex)
  {
  }

  lemma {:induction false} JobUnlockHolders(s: State, t: nat, l: nat)
    requires HolderOk(s, l) && PcOf(s, t).MUnlock?
    ensures HolderOk(JobStep(s, JobUnlock(t)), l)
  {
    UnlockedStep(s, t);
    FreeHolders(s, t, Unlocked(PcOf(s, t)), l);
  }

  lemma {:induction false} JobStepHolders(s: State, a: Action, l: nat)
    requires HoldersOk(s) && Enabled(s, a) && IsJobStep(a)
    ensures HolderOk(JobStep(s, a), l)
  {
    assert HolderOk(s, l);
    var pc := PcOf(s, a.t);
    if a.JobAcquire? {
      assert PcOf(JobStep(s, a), a.t) == MLockHeld(pc.job, pc.l);
    } else if a.JobCommit? {
      CommitHolders(s, pc.job, l);
      MoveHolders(CommitConfig(s, pc.job), a.t, MUnlock(pc.job, pc.l, true), l);
    } else if a.JobFail? {
      MoveHolders(s, a.t, MUnlock(pc.job, pc.l, false), l);
    } else if a.JobUnlock? {
      JobUnlockHolders(s, a.t, l);
    } else {
      MoveHolders(s.(locks := s.locks - {pc.id}, mutex := None), a.t, Idle, l);
    }
  }

  lemma {:induction false} RegisteringHolders(s: State, t: nat, l: nat)
    requires HolderOk(s, l) && PcOf(s, t).MBuilt? && s.nextReader !in s.readers
    ensures HolderOk(Registering(s, t), l)
  {
  }

  lemma {:induction false} StartStepHolders(s: State, a: Action, l: nat)
    requires HoldersOk(s) && Enabled(s, a) && IsStartStep(a) && s.nextReader !in s.readers
    ensures HolderOk(StartStep(s, a), l)
  {
    assert HolderOk(s, l);
    var pc := PcOf(s, a.t);
    if a.StartsDone? {
      MoveHolders(s.(mutex := None), a.t, Idle, l);
    } else if a.Register? && pc.id !in s.runtimes {
      RegisteringHolders(s, a.t, l);
      MoveHolders(Registering(s, a.t), a.t, MStart(pc.starts), l);
    } else {
      MoveHolders(s, a.t, PcOf(StartStep(s, a), a.t), l);
    }
  }

  /** A reader that changes position without giving its lock away. */
  lemma {:induction false} ReaderMoveHolders(s: State, r: nat, pc: ReaderPc, l: nat)
    requires r in s.readers && HolderOk(s, l)
    requires !ReaderHolding(RpcOf(s, r)) || (ReaderHolding(pc) && pc.l == RpcOf(s, r).l)
    ensures HolderOk(SetRpc(s, r, pc), l)
  {
  }

  lemma {:induction false} ReaderAcquireHolders(s: State, r: nat, l: nat)
    requires HolderOk(s, l) && RpcOf(s, r).RWait? && RpcOf(s, r).l !in s.held
    ensures var k := RpcOf(s, r).l; HolderOk(SetRpc(Hold(s, k, ReaderAgent(r)), r, RHold(k)), l)
  {
    var k := RpcOf(s, r).l;
    assert RpcOf(SetRpc(Hold(s, k, ReaderAgent(r)), r, RHold(k)), r) == RHold(k);
  }

  lemma {:induction false} ReaderReleaseHolders(s: State, r: nat, l: nat)
    requires HolderOk(s, l) && ReaderHolding(RpcOf(s, r))
    ensures HolderOk(SetRpc(Free(s, RpcOf(s, r).l), r, RIdle), l)
  {
  }

  lemma {:induction false} ReaderStepHolders(s: State, a: Action, l: nat)
    requires HoldersOk(s) && Enabled(s, a) && IsReaderStep(a)
    ensures HolderOk(ReaderStep(s, a), l)
  {
    assert HolderOk(s, l);
    var r := a.r;
    var reader := s.readers[r];
    if a.ReaderBegin? {
      ReaderMoveHolders(WithLock(s, reader.id), r, RWait(LockFor(s, reader.id)), l);
    } else if a.ReaderAcquire? {
      ReaderAcquireHolders(s, r, l);
    } else if a.ReaderRelease? {
      ReaderReleaseHolders(s, r, l);
    } else if a.ReaderApply? {
      ReaderMoveHolders(Record(s, reader.id, FromReader(reader.row, reader.dsn)), r,
          RPubWait(reader.pc.l, reader.pc.n - 1), l);
    } else {
      ReaderMoveHolders(s, r, RpcOf(ReaderStep(s, a), r), l);
    }
  }

  lemma {:induction false} PublishStepHolders(s: State, a: Action, l: nat)
    requires HoldersOk(s) && Enabled(s, a) && IsPublishStep(a)
    ensures HolderOk(PublishStep(s, a), l)
  {
    assert HolderOk(s, l);
    if a.AskPublish? {
      MoveHolders(s, a.t, PubWait, l);
    } else if a.TakeMap? {
      MoveHolders(s.(publishing := Some(Thread(a.t))), a.t, PcOf(PublishStep(s, a), a.t), l);
    } else if a.LeaveMap? {
      MoveHolders(s.(publishing := None), a.t, AfterMap(PcOf(s, a.t)), l);
    } else if a.ReaderTakeMap? {
      ReaderMoveHolders(s.(publishing := Some(ReaderAgent(a.r))), a.r, RpcOf(PublishStep(s, a), a.r), l);
    } else {
      ReaderMoveHolders(s.(publishing := None), a.r, RpcOf(PublishStep(s, a), a.r), l);
    }
  }

  lemma {:induction false} StepHolders(s: State, a: Action)
    requires Sound(s) && HoldersOk(s) && Enabled(s, a)
    ensures HoldersOk(Step(s, a))
  {
    forall l: nat ensures HolderOk(Step(s, a), l) {
      if IsSyncStep(a) {
        SyncStepHolders(s, a, l);
      } else if IsStopStep(a) {
        StopStepHolders(s, a, l);
      } else if IsJobStep(a) {
        JobStepHolders(s, a, l);
      } else if IsStartStep(a) {
        assert ReaderOk(s, s.nextReader);
        StartStepHolders(s, a, l);
      } else if IsReaderStep(a) {
        ReaderStepHolders(s, a, l);
      } else {
        PublishStepHolders(s, a, l);
      }
    }
  }

  lemma {:induction false} ReachesHolders(s: State, actions: seq<Action>, s': State)
    requires Sound(s) && HoldersOk(s) && Reaches(s, actions, s')
    ensures Sound(s') && HoldersOk(s')
    decreases |actions|
  {
    if |actions| > 0 {
      StepOk(s, actions[0]);
      StepHolders(s, actions[0]);
      ReachesHolders(Step(s, actions[0]), actions[1..], s');
    }
  }

  /** The action belongs to work already under way; AdvanceLowers says that it lowers a measure. */
  predicate Advances(s: State, a: Action) {
    match a
    case CreateSource(_) => false
    case RunBegins => false
    case SyncBegin(_, _) => false
    case Ask(_, _) => false
    case AskPublish(_) => false
    case ReaderBegin(_) => false
    case ReaderExit(r) => r in s.readers && s.readers[r].cancelled
    case _ => true
  }

  ghost predicate CanAdvance(s: State) { exists a :: Enabled(s, a) && Advances(s, a) }

  /** What a thread can do at a position that waits for nothing. */
  function NextOf(t: nat, pc: Pc): Action {
    if pc.MList? then List(t)
    else if pc.MLockHeld? then JobFail(t)
    else if pc.MUnlock? then JobUnlock(t)
    else if pc.MDrop? then DropLock(t)
    else if pc.MBuilt? then Register(t)
    else if pc.MStart? then StartsDone(t)
    else if Publishing(pc) then LeaveMap(t)
    else SyncRelease(t)
  }

  /** A position from which the next step needs nobody else. */
  predicate GoesOn(pc: Pc) {
    !pc.Idle? && !pc.MWant? && !pc.SWait? && !pc.MLockWait? && !pc.SPubWait? && !pc.PubWait? && !pc.MStop?
    && (pc.MStart? ==> pc.starts == map[])
  }

  lemma {:induction false} NextAdvances(s: State, t: nat)
    requires GoesOn(PcOf(s, t))
    ensures CanAdvance(s)
  {
    assert Enabled(s, NextOf(t, PcOf(s, t)));
  }

  lemma {:induction false} ReaderInMapAdvances(s: State, r: nat)
    requires RpcOf(s, r).RPublish?
    ensures CanAdvance(s)
  {
    assert Enabled(s, ReaderLeaveMap(r));
  }

  /** Whoever waits for the map-change lock can take it, or its holder can leave it. */
  lemma {:induction false} MapAdvances(s: State, a: Agent)
    requires Sound(s)
    requires match a
             case Thread(t) => PcOf(s, t).SPubWait? || PcOf(s, t).PubWait?
             case ReaderAgent(r) => RpcOf(s, r).RPubWait?
    ensures CanAdvance(s)
  {
    match s.publishing
    case None => MapFree(s, a);
    case Some(Thread(t)) =>
      assert ThreadOk(s, t, PcOf(s, t));
      NextAdvances(s, t);
    case Some(ReaderAgent(r)) =>
      assert ReaderOk(s, r);
      ReaderInMapAdvances(s, r);
  }

  lemma {:induction false} MapFree(s: State, a: Agent)
    requires s.publishing.None?
    requires match a
             case Thread(t) => PcOf(s, t).SPubWait? || PcOf(s, t).PubWait?
             case ReaderAgent(r) => RpcOf(s, r).RPubWait?
    ensures CanAdvance(s)
  {
    assert Enabled(s, if a.Thread? then TakeMap(a.t) else ReaderTakeMap(a.r));
  }

  lemma {:induction false} ReaderHolderAdvances(s: State, r: nat)
    requires ReaderHolding(RpcOf(s, r)) && !RpcOf(s, r).RPubWait?
    ensures CanAdvance(s)
  {
    if RpcOf(s, r).RPublish? {
      ReaderInMapAdvances(s, r);
    } else {
      assert Enabled(s, ReaderRelease(r));
    }
  }

  /** Whoever holds a source lock can go on, or waits for the map-change lock. */
  lemma {:induction false} HolderAdvances(s: State, l: LockId)
    requires Sound(s) && HolderOk(s, l) && l in s.held
    ensures CanAdvance(s)
  {
    match s.held[l]
    case ReaderAgent(r) =>
      if RpcOf(s, r).RPubWait? {
        MapAdvances(s, s.held[l]);
      } else {
        ReaderHolderAdvances(s, r);
      }
    case Thread(t) =>
      if PcOf(s, t).SPubWait? {
        MapAdvances(s, s.held[l]);
      } else {
        NextAdvances(s, t);
      }
  }

  lemma {:induction false} Member<T>(s: set<T>) returns (x: T)
    requires s != {}
    ensures x in s
  {
    assert |s| != 0;
    x :| x in s;
  }

  /** Stopping a reader never waits for something that waits for the reader to be stopped. */
  lemma {:induction false} ReapAdvances(s: State, t: nat, r: nat)
    requires Sound(s) && HoldersOk(s) && PcOf(s, t).MStop? && r in PcOf(s, t).taken && r in s.readers
    requires PcOf(s, t).todo == {} || !PcOf(s, t).job.Shutdown?
    ensures CanAdvance(s)
  {
    var reader := s.readers[r];
    if !reader.cancelled || reader.pc.RDone? || reader.pc.RIdle? || (reader.pc.RWait? && reader.pc.l !in s.held) {
      FreeToEnd(s, t, r);
    } else {
      assert ReaderOk(s, r) && HolderOk(s, reader.pc.l);
      HolderAdvances(s, reader.pc.l);
    }
  }

  lemma {:induction false} FreeToEnd(s: State, t: nat, r: nat)
    requires PcOf(s, t).MStop? && r in PcOf(s, t).taken && r in s.readers
    requires PcOf(s, t).todo == {} || !PcOf(s, t).job.Shutdown?
    requires var reader := s.readers[r];
      !reader.cancelled || reader.pc.RDone? || reader.pc.RIdle? || (reader.pc.RWait? && reader.pc.l !in s.held)
    ensures CanAdvance(s)
  {
    var reader := s.readers[r];
    if !reader.cancelled {
      assert Enabled(s, Cancel(t, r));
    } else if reader.pc.RDone? {
      assert Enabled(s, Reap(t, r));
    } else if reader.pc.RIdle? {
      assert Enabled(s, ReaderExit(r));
    } else {
      assert Enabled(s, ReaderAcquire(r));
    }
  }

  lemma {:induction false} StopAdvances(s: State, t: nat)
    requires Sound(s) && HoldersOk(s) && PcOf(s, t).MStop?
    ensures CanAdvance(s)
  {
    var pc := PcOf(s, t);
    if pc.todo == {} && pc.taken == {} {
      assert Enabled(s, StopsDone(t));
    } else if pc.taken == {} || (pc.todo != {} && pc.job.Shutdown?) {
      var id := Member(pc.todo);
      assert Enabled(s, Take(t, id));
    } else {
      var r := Member(pc.taken);
      assert ThreadOk(s, t, pc);
      ReapAdvances(s, t, r);
    }
  }

  lemma {:induction false} LockAdvances(s: State, t: nat)
    requires Sound(s) && HoldersOk(s) && (PcOf(s, t).SWait? || PcOf(s, t).MLockWait?)
    ensures CanAdvance(s)
  {
    var pc := PcOf(s, t);
    assert HolderOk(s, pc.l);
    if pc.l in s.held {
      HolderAdvances(s, pc.l);
    } else {
      assert Enabled(s, if pc.SWait? then SyncAcquire(t) else JobAcquire(t));
    }
  }

  /** A thread inside the mutex, or waiting for a source lock, can go on or waits for one that can. */
  lemma {:induction false} InsideAdvances(s: State, t: nat)
    requires Sound(s) && HoldersOk(s) && !PcOf(s, t).Idle? && !PcOf(s, t).MWant?
    ensures CanAdvance(s)
  {
    var pc := PcOf(s, t);
    if pc.SWait? || pc.MLockWait? {
      LockAdvances(s, t);
    } else if pc.SPubWait? || pc.PubWait? {
      MapAdvances(s, Thread(t));
    } else if pc.MStop? {
      StopAdvances(s, t);
    } else if pc.MStart? && pc.starts != map[] {
      assert pc.starts.Keys != {};
      var id := Member(pc.starts.Keys);
      assert Enabled(s, StartSkip(t, id));
    } else {
      NextAdvances(s, t);
    }
  }

  lemma {:induction false} SomethingAdvances(s: State, t: nat)
    requires Sound(s) && HoldersOk(s) && !PcOf(s, t).Idle?
    ensures CanAdvance(s)
  {
    if PcOf(s, t).MWant? {
      if s.mutex.None? {
        assert Enabled(s, Enter(t));
      } else {
        assert ThreadOk(s, s.mutex.value, PcOf(s, s.mutex.value));
        InsideAdvances(s, s.mutex.value);
      }
    } else {
      InsideAdvances(s, t);
    }
  }

  /** No deadlock: in every reachable state, as long as one thread has something under way,
      some agent can advance work under way. */
  lemma {:induction false} NoDeadlock(actions: seq<Action>, s: State, t: nat)
    requires Reaches(START, actions, s)
    ensures !PcOf(s, t).Idle? ==> exists a :: Enabled(s, a) && Advances(s, a)
  {
    ReachesHolders(START, actions, s);
    if !PcOf(s, t).Idle? {
      SomethingAdvances(s, t);
    }
  }
}
