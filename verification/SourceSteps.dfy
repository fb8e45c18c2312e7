/** Every step of the life cycle of sources keeps its invariant. */
module SourceSteps {
  import opened Text
  import opened SourceLifecycle

  // ---------- Steps that move one agent ----------

  /** What a position says about the shared state does not depend on where threads are. */
  lemma {:induction false} MoveKeepsPosition(s: State, t: nat, pc: Pc, u: nat, x: Pc)
    requires ThreadOk(s, u, x)
    ensures ThreadOk(SetPc(s, t, pc), u, x)
  {
  }

  lemma {:induction false} MoveKeepsThreads(s: State, t: nat, pc: Pc, u: nat)
    requires ThreadOk(s, u, PcOf(s, u)) && ThreadOk(s, t, pc)
    ensures ThreadOk(SetPc(s, t, pc), u, PcOf(SetPc(s, t, pc), u))
  {
    MoveKeepsPosition(s, t, pc, u, if u == t then pc else PcOf(s, u));
    assert PcOf(SetPc(s, t, pc), u) == if u == t then pc else PcOf(s, u);
  }

  lemma {:induction false} MoveKeepsReaders(s: State, t: nat, pc: Pc, r: nat)
    requires Sound(s) && ThreadOk(s, t, pc)
    requires PcOf(s, t).MStop? && Alive(s, r) && r in PcOf(s, t).taken ==> pc.MStop? && r in pc.taken
    ensures ReaderOk(SetPc(s, t, pc), r)
  {
    assert ReaderOk(s, r);
    assert ThreadOk(s, t, PcOf(s, t));
  }

  /** A thread may move on whenever its new position is safe and it drops no reader that is still alive. */
  lemma {:induction false} MoveOk(s: State, t: nat, pc: Pc)
    requires Sound(s) && ThreadOk(s, t, pc)
    requires PcOf(s, t).MStop? ==> forall r :: r in PcOf(s, t).taken && Alive(s, r) ==> pc.MStop? && r in pc.taken
    ensures Sound(SetPc(s, t, pc))
  {
    forall u: nat ensures ThreadOk(SetPc(s, t, pc), u, PcOf(SetPc(s, t, pc), u)) {
      assert ThreadOk(s, u, PcOf(s, u));
      MoveKeepsThreads(s, t, pc, u);
    }
    forall r: nat ensures ReaderOk(SetPc(s, t, pc), r) {
      MoveKeepsReaders(s, t, pc, r);
    }
    forall id: int ensures IdOk(SetPc(s, t, pc), id) { assert IdOk(s, id); }
  }

  lemma {:induction false} ReaderMoveKeepsThread(s: State, r: nat, pc: ReaderPc, u: nat)
    requires r in s.readers && ThreadOk(s, u, PcOf(s, u))
    ensures ThreadOk(SetRpc(s, r, pc), u, PcOf(s, u))
  {
  }

  lemma {:induction false} ReaderMoveKeepsReader(s: State, r: nat, pc: ReaderPc, q: nat)
    requires r in s.readers && ReaderOk(s, r) && ReaderOk(s, q)
    requires (Alive(s, r) || pc.RDone?) && (pc.RPublish? <==> RpcOf(s, r).RPublish?)
    requires pc.RWait? || ReaderHolding(pc) ==> RefOk(s, s.readers[r].id, pc.l)
    requires ReaderHolding(pc) ==> pc.l in s.held && s.held[pc.l] == ReaderAgent(r)
    ensures ReaderOk(SetRpc(s, r, pc), q)
  {
  }

  /** A reader may move on as long as it keeps its lock and does not come back to life. */
  lemma {:induction false} ReaderMoveOk(s: State, r: nat, pc: ReaderPc)
    requires Sound(s) && r in s.readers
    requires (Alive(s, r) || pc.RDone?) && (pc.RPublish? <==> RpcOf(s, r).RPublish?)
    requires pc.RWait? || ReaderHolding(pc) ==> RefOk(s, s.readers[r].id, pc.l)
    requires ReaderHolding(pc) ==> pc.l in s.held && s.held[pc.l] == ReaderAgent(r)
    ensures Sound(SetRpc(s, r, pc))
  {
    var s' := SetRpc(s, r, pc);
    forall u: nat ensures ThreadOk(s', u, PcOf(s', u)) { ReaderMoveKeepsThread(s, r, pc, u); }
    forall q: nat ensures ReaderOk(s', q) { ReaderMoveKeepsReader(s, r, pc, q); }
    forall id: int ensures IdOk(s', id) { assert IdOk(s, id); }
  }

  // ---------- Steps that change what agents share ----------

  lemma {:induction false} WithLockKeepsThread(s: State, id: int, u: nat)
    requires IdOk(s, id) && ThreadOk(s, u, PcOf(s, u))
    ensures ThreadOk(WithLock(s, id), u, PcOf(s, u))
  {
  }

  lemma {:induction false} WithLockKeepsReader(s: State, id: int, q: nat)
    requires IdOk(s, id) && ReaderOk(s, q)
    ensures ReaderOk(WithLock(s, id), q)
  {
  }

  /** Looking a lock up never disturbs a lock already in use. */
  lemma {:induction false} WithLockOk(s: State, id: int)
    requires Sound(s)
    ensures Sound(WithLock(s, id)) && RefOk(WithLock(s, id), id, LockFor(s, id))
  {
    var s' := WithLock(s, id);
    assert IdOk(s, id);
    forall u: nat ensures ThreadOk(s', u, PcOf(s', u)) { WithLockKeepsThread(s, id, u); }
    forall q: nat ensures ReaderOk(s', q) { WithLockKeepsReader(s, id, q); }
    forall j: int ensures IdOk(s', j) { assert IdOk(s, j); }
  }

  lemma {:induction false} HoldKeepsThread(s: State, l: LockId, a: Agent, u: nat)
    requires l !in s.held && ThreadOk(s, u, PcOf(s, u))
    ensures ThreadOk(Hold(s, l, a), u, PcOf(s, u))
  {
  }

  lemma {:induction false} HoldOk(s: State, l: LockId, a: Agent)
    requires Sound(s) && l !in s.held
    ensures Sound(Hold(s, l, a))
  {
    var s' := Hold(s, l, a);
    forall u: nat ensures ThreadOk(s', u, PcOf(s', u)) { HoldKeepsThread(s, l, a, u); }
    forall q: nat ensures ReaderOk(s', q) { assert ReaderOk(s, q); }
    forall j: int ensures IdOk(s', j) { assert IdOk(s, j); }
  }

  lemma {:induction false} FreeKeepsThread(s: State, l: LockId, u: nat)
    requires l in s.held && ThreadOk(s, u, PcOf(s, u))
    requires !(s.held[l] == Thread(u) && ThreadHolds(PcOf(s, u)) && PcOf(s, u).l == l)
    ensures ThreadOk(Free(s, l), u, PcOf(s, u))
  {
  }

  lemma {:induction false} FreeKeepsReader(s: State, l: LockId, q: nat)
    requires l in s.held && ReaderOk(s, q)
    requires !(s.held[l] == ReaderAgent(q) && ReaderHolding(RpcOf(s, q)) && RpcOf(s, q).l == l)
    ensures ReaderOk(Free(s, l), q)
  {
  }

  /** A lock may be freed once its holder has moved to a position that does not need it. */
  lemma {:induction false} FreeOk(s: State, l: LockId)
    requires Sound(s) && l in s.held
    requires match s.held[l]
             case Thread(t) => !(ThreadHolds(PcOf(s, t)) && PcOf(s, t).l == l)
             case ReaderAgent(r) => !(ReaderHolding(RpcOf(s, r)) && RpcOf(s, r).l == l)
    ensures Sound(Free(s, l))
  {
    var s' := Free(s, l);
    forall u: nat ensures ThreadOk(s', u, PcOf(s', u)) { FreeKeepsThread(s, l, u); }
    forall q: nat ensures ReaderOk(s', q) { FreeKeepsReader(s, l, q); }
    forall j: int ensures IdOk(s', j) { assert IdOk(s, j); }
  }

  lemma {:induction false} RecordOk(s: State, id: int, e: Evidence)
    requires Sound(s) && id in s.sources && FetchedUnder(e, s.sources[id]) && Entitled(e, s.sources[id])
    ensures Sound(Record(s, id, e))
  {
    var s' := Record(s, id, e);
    forall u: nat ensures ThreadOk(s', u, PcOf(s', u)) { assert ThreadOk(s, u, PcOf(s, u)); }
    forall q: nat ensures ReaderOk(s', q) { assert ReaderOk(s, q); }
    forall j: int ensures IdOk(s', j) { assert IdOk(s, j); }
  }

  lemma {:induction false} CreateKeepsThread(s: State, config: Config, u: nat)
    requires 0 < s.nextId && IdOk(s, s.nextId) && ThreadOk(s, u, PcOf(s, u))
    ensures ThreadOk(SyncStep(s, CreateSource(config)), u, PcOf(s, u))
  {
  }

  lemma {:induction false} CreateOk(s: State, config: Config)
    requires Sound(s)
    ensures Sound(SyncStep(s, CreateSource(config)))
  {
    var s' := SyncStep(s, CreateSource(config));
    assert IdOk(s, s.nextId);
    forall u: nat ensures ThreadOk(s', u, PcOf(s', u)) {
      assert ThreadOk(s, u, PcOf(s, u));
      CreateKeepsThread(s, config, u);
    }
    forall q: nat ensures ReaderOk(s', q) { assert ReaderOk(s, q); }
    forall j: int ensures IdOk(s', j) { assert IdOk(s, j); }
  }

  // ---------- Full synchronisations ----------

  lemma {:induction false} SyncReadRowOk(s: State, t: nat)
    requires Sound(s) && Enabled(s, SyncReadRow(t))
    ensures Sound(SyncStep(s, SyncReadRow(t)))
  {
    var pc := PcOf(s, t);
    assert ThreadOk(s, t, pc);
    MoveOk(s, t, SRow(pc.id, pc.l, s.sources[pc.id].row));
  }

  lemma {:induction false} SyncReadKeyOk(s: State, t: nat)
    requires Sound(s) && Enabled(s, SyncReadKey(t))
    ensures Sound(SyncStep(s, SyncReadKey(t)))
  {
    var pc := PcOf(s, t);
    assert ThreadOk(s, t, pc);
    MoveOk(s, t, SKey(pc.id, pc.l, pc.row, s.sources[pc.id].apiKey.value));
  }

  lemma {:induction false} SyncFetchOk(s: State, t: nat)
    requires Sound(s) && Enabled(s, SyncFetch(t))
    ensures Sound(SyncStep(s, SyncFetch(t)))
  {
    var pc := PcOf(s, t);
    assert ThreadOk(s, t, pc);
    MoveOk(s, t, SData(pc.id, pc.l, pc.row, pc.key));
  }

  lemma {:induction false} SyncBeginOk(s: State, t: nat, id: int)
    requires Sound(s) && PcOf(s, t).Idle?
    ensures Sound(SyncStep(s, SyncBegin(t, id)))
  {
    WithLockOk(s, id);
    assert ThreadOk(s, t, PcOf(s, t));
    MoveOk(WithLock(s, id), t, SWait(id, LockFor(s, id)));
  }

  lemma {:induction false} SyncAcquireOk(s: State, t: nat)
    requires Sound(s) && Enabled(s, SyncAcquire(t))
    ensures Sound(SyncStep(s, SyncAcquire(t)))
  {
    var pc := PcOf(s, t);
    HoldOk(s, pc.l, Thread(t));
    assert ThreadOk(s, t, pc);
    MoveOk(Hold(s, pc.l, Thread(t)), t, SHold(pc.id, pc.l));
  }

  /** Giving the source lock back. */
  lemma {:induction false} SyncReleaseOk(s: State, t: nat)
    requires Sound(s) && Enabled(s, SyncRelease(t))
    ensures Sound(SyncStep(s, SyncRelease(t)))
  {
    assert ThreadOk(s, t, PcOf(s, t));
    MoveOk(s, t, Idle);
    FreeOk(SetPc(s, t, Idle), PcOf(s, t).l);
  }

  lemma {:induction false} SyncCommitOk(s: State, t: nat, changed: bool)
    requires Sound(s) && Enabled(s, SyncCommit(t, changed))
    ensures Sound(SyncStep(s, SyncCommit(t, changed)))
  {
    var pc := PcOf(s, t);
    assert ThreadOk(s, t, pc);
    RecordOk(s, pc.id, FromApi(pc.row.kind, pc.row.baseUrl, pc.key));
    MoveOk(Record(s, pc.id, FromApi(pc.row.kind, pc.row.baseUrl, pc.key)), t,
           if changed then SPubWait(pc.id, pc.l) else SDone(pc.id, pc.l));
  }

  // ---------- The reconcile mutex ----------

  lemma {:induction false} RunningOk(s: State, running: bool)
    requires Sound(s)
    ensures Sound(s.(running := running))
  {
    var s' := s.(running := running);
    forall u: nat ensures ThreadOk(s', u, PcOf(s', u)) { assert ThreadOk(s, u, PcOf(s, u)); }
    forall q: nat ensures ReaderOk(s', q) { assert ReaderOk(s, q); }
    forall j: int ensures IdOk(s', j) { assert IdOk(s, j); }
  }

  lemma {:induction false} TakeMutexKeepsThread(s: State, t: nat, pc: Pc, u: nat)
    requires s.mutex.None? && PcOf(s, t).MWant? && ThreadOk(s, u, PcOf(s, u))
    requires InMutex(pc) && LockRef(pc).None? && !ThreadHolds(pc) && PcOk(s, pc)
    ensures var s' := SetPc(s.(mutex := Some(t)), t, pc); ThreadOk(s', u, PcOf(s', u))
  {
  }

  /** A free mutex may be taken by a thread outside it. */
  lemma {:induction false} TakeMutexOk(s: State, t: nat, pc: Pc)
    requires Sound(s) && s.mutex.None? && PcOf(s, t).MWant?
    requires InMutex(pc) && LockRef(pc).None? && !ThreadHolds(pc) && PcOk(s, pc)
    ensures Sound(SetPc(s.(mutex := Some(t)), t, pc))
  {
    var s' := SetPc(s.(mutex := Some(t)), t, pc);
    forall u: nat ensures ThreadOk(s', u, PcOf(s', u)) { TakeMutexKeepsThread(s, t, pc, u); }
    forall q: nat ensures ReaderOk(s', q) { assert ReaderOk(s, q); }
    forall j: int ensures IdOk(s', j) { assert IdOk(s, j); }
  }

  lemma {:induction false} EnterOk(s: State, t: nat)
    requires Sound(s) && Enabled(s, Enter(t))
    ensures Sound(EnterStep(s, t))
  {
    var job := PcOf(s, t).job;
    assert ThreadOk(s, t, PcOf(s, t));
    var s1 := s.(running := s.running && !job.Shutdown?);
    RunningOk(s, s1.running);
    TakeMutexOk(s1, t, FirstPc(s, job));
  }

  /** The mutex may be left from any position that holds no lock and has no reader left to stop. */
  lemma {:induction false} LeaveOk(s: State, t: nat)
    requires Sound(s) && InMutex(PcOf(s, t)) && !ThreadHolds(PcOf(s, t))
    requires PcOf(s, t).MStop? ==> PcOf(s, t).taken == {}
    ensures Sound(Leave(s, t))
  {
    var s' := Leave(s, t);
    assert ThreadOk(s, t, PcOf(s, t));
    forall u: nat ensures ThreadOk(s', u, PcOf(s', u)) { assert ThreadOk(s, u, PcOf(s, u)); }
    forall q: nat ensures ReaderOk(s', q) { assert ReaderOk(s, q); }
    forall j: int ensures IdOk(s', j) { assert IdOk(s, j); }
  }

  // ---------- Stopping readers ----------

  lemma {:induction false} ListOk(s: State, t: nat)
    requires Sound(s) && Enabled(s, List(t))
    ensures Sound(StopStep(s, List(t)))
  {
    var pc := PcOf(s, t);
    assert ThreadOk(s, t, pc);
    MoveOk(s, t, MStop(Reconcile(pc.only, pc.force), ToStop(s, pc.only, pc.force), {}, ToStart(s, pc.only)));
  }

  lemma {:induction false} TakeKeepsThreads(s: State, t: nat, id: int, u: nat)
    requires Sound(s) && PcOf(s, t).MStop? && id in s.runtimes
    requires PcOf(s, t).taken == {} || PcOf(s, t).job.Shutdown?
    ensures ThreadOk(TakeStep(s, t, id), u, PcOf(TakeStep(s, t, id), u))
  {
    assert ThreadOk(s, t, PcOf(s, t)) && ThreadOk(s, u, PcOf(s, u)) && IdOk(s, id);
  }

  lemma {:induction false} TakeKeepsReaders(s: State, t: nat, id: int, r: nat)
    requires Sound(s) && PcOf(s, t).MStop? && id in s.runtimes
    ensures ReaderOk(TakeStep(s, t, id), r)
  {
    assert ThreadOk(s, t, PcOf(s, t)) && ReaderOk(s, r);
  }

  lemma {:induction false} TakeOk(s: State, t: nat, id: int)
    requires Sound(s) && Enabled(s, Take(t, id))
    ensures Sound(StopStep(s, Take(t, id)))
  {
    assert ThreadOk(s, t, PcOf(s, t));
    if id in s.runtimes {
      forall u: nat ensures ThreadOk(TakeStep(s, t, id), u, PcOf(TakeStep(s, t, id), u)) {
        TakeKeepsThreads(s, t, id, u);
      }
      forall r: nat ensures ReaderOk(TakeStep(s, t, id), r) {
        TakeKeepsReaders(s, t, id, r);
      }
      forall j: int ensures IdOk(TakeStep(s, t, id), j) { assert IdOk(s, j); }
    } else {
      MoveOk(s, t, PcOf(s, t).(todo := PcOf(s, t).todo - {id}));
    }
  }

  lemma {:induction false} CancelKeepsThread(s: State, r: nat, u: nat)
    requires r in s.readers && ThreadOk(s, u, PcOf(s, u))
    ensures ThreadOk(SetReader(s, r, s.readers[r].(cancelled := true)), u, PcOf(s, u))
  {
  }

  lemma {:induction false} CancelKeepsReader(s: State, r: nat, q: nat)
    requires r in s.readers && ReaderOk(s, q)
    ensures ReaderOk(SetReader(s, r, s.readers[r].(cancelled := true)), q)
  {
  }

  lemma {:induction false} CancelOk(s: State, r: nat)
    requires Sound(s) && r in s.readers
    ensures Sound(SetReader(s, r, s.readers[r].(cancelled := true)))
  {
    var s' := SetReader(s, r, s.readers[r].(cancelled := true));
    forall u: nat ensures ThreadOk(s', u, PcOf(s', u)) { CancelKeepsThread(s, r, u); }
    forall q: nat ensures ReaderOk(s', q) { CancelKeepsReader(s, r, q); }
    forall j: int ensures IdOk(s', j) { assert IdOk(s, j); }
  }

  lemma {:induction false} ReapOk(s: State, t: nat, r: nat)
    requires Sound(s) && Enabled(s, Reap(t, r))
    ensures Sound(StopStep(s, Reap(t, r)))
  {
    assert ThreadOk(s, t, PcOf(s, t));
    MoveOk(s, t, PcOf(s, t).(taken := PcOf(s, t).taken - {r}));
  }

  lemma {:induction false} StopsDoneOk(s: State, t: nat)
    requires Sound(s) && Enabled(s, StopsDone(t))
    ensures Sound(StopStep(s, StopsDone(t)))
  {
    var pc := PcOf(s, t);
    assert ThreadOk(s, t, pc);
    if IsConfigJob(pc.job) {
      WithLockOk(s, pc.job.id);
      MoveOk(WithLock(s, pc.job.id), t, MLockWait(pc.job, LockFor(s, pc.job.id)));
    } else if pc.job.Reconcile? {
      MoveOk(s, t, MStart(pc.desired));
    } else {
      LeaveOk(s, t);
    }
  }

  // ---------- Updates and deletions ----------

  lemma {:induction false} JobAcquireOk(s: State, t: nat)
    requires Sound(s) && Enabled(s, JobAcquire(t))
    ensures Sound(JobStep(s, JobAcquire(t)))
  {
    var pc := PcOf(s, t);
    HoldOk(s, pc.l, Thread(t));
    assert ThreadOk(s, t, pc);
    MoveOk(Hold(s, pc.l, Thread(t)), t, MLockHeld(pc.job, pc.l));
  }

  /** Whoever has read the old configuration of a source holds its lock, or the mutex. */
  lemma {:induction false} UpdateKeepsThread(s: State, t: nat, u: nat)
    requires PcOf(s, t).MLockHeld? && PcOf(s, t).job.Update? && PcOf(s, t).job.id in s.sources
    requires ThreadOk(s, t, PcOf(s, t)) && ThreadOk(s, u, PcOf(s, u))
    ensures var job := PcOf(s, t).job; ThreadOk(s.(sources := s.sources[job.id := job.config]), u, PcOf(s, u))
  {
  }

  lemma {:induction false} DeleteKeepsThread(s: State, t: nat, u: nat)
    requires PcOf(s, t).MLockHeld? && PcOf(s, t).job.Delete?
    requires ThreadOk(s, t, PcOf(s, t)) && ThreadOk(s, u, PcOf(s, u))
    ensures ThreadOk(s.(sources := s.sources - {PcOf(s, t).job.id}), u, PcOf(s, u))
  {
  }

  lemma {:induction false} CommitKeepsThreads(s: State, t: nat, u: nat)
    requires PcOf(s, t).MLockHeld? && ThreadOk(s, t, PcOf(s, t)) && ThreadOk(s, u, PcOf(s, u))
    ensures ThreadOk(CommitConfig(s, PcOf(s, t).job), u, PcOf(s, u))
  {
    var job := PcOf(s, t).job;
    if job.Update? && job.id in s.sources {
      UpdateKeepsThread(s, t, u);
    } else if job.Delete? {
      DeleteKeepsThread(s, t, u);
    }
  }

  /** A source being changed has no reader left. */
  lemma {:induction false} CommitKeepsReaders(s: State, t: nat, r: nat)
    requires Sound(s) && PcOf(s, t).MLockHeld?
    ensures ReaderOk(CommitConfig(s, PcOf(s, t).job), r)
  {
    assert ThreadOk(s, t, PcOf(s, t)) && ReaderOk(s, r);
  }

  lemma {:induction false} CommitConfigOk(s: State, t: nat)
    requires Sound(s) && PcOf(s, t).MLockHeld?
    ensures Sound(CommitConfig(s, PcOf(s, t).job))
  {
    var s' := CommitConfig(s, PcOf(s, t).job);
    forall u: nat ensures ThreadOk(s', u, PcOf(s', u)) {
      CommitKeepsThreads(s, t, u);
    }
    forall r: nat ensures ReaderOk(s', r) {
      CommitKeepsReaders(s, t, r);
    }
    forall j: int ensures IdOk(s', j) { assert IdOk(s, j); }
  }

  lemma {:induction false} CommittedPosition(s: State, t: nat)
    requires PcOf(s, t).MLockHeld? && ThreadOk(s, t, PcOf(s, t))
    ensures var pc := PcOf(s, t); ThreadOk(CommitConfig(s, pc.job), t, MUnlock(pc.job, pc.l, true))
  {
  }

  lemma {:induction false} JobCommitOk(s: State, t: nat)
    requires Sound(s) && Enabled(s, JobCommit(t))
    ensures Sound(JobStep(s, JobCommit(t)))
  {
    var pc := PcOf(s, t);
    assert ThreadOk(s, t, pc);
    CommitConfigOk(s, t);
    CommittedPosition(s, t);
    MoveOk(CommitConfig(s, pc.job), t, MUnlock(pc.job, pc.l, true));
  }

  lemma {:induction false} JobFailOk(s: State, t: nat)
    requires Sound(s) && Enabled(s, JobFail(t))
    ensures Sound(JobStep(s, JobFail(t)))
  {
    assert ThreadOk(s, t, PcOf(s, t));
    MoveOk(s, t, MUnlock(PcOf(s, t).job, PcOf(s, t).l, false));
  }

  /** Giving the source lock back inside the mutex. */
  lemma {:induction false} UnlockOk(s: State, t: nat, pc: Pc)
    requires Sound(s) && PcOf(s, t).MUnlock?
    requires InMutex(pc) && LockRef(pc).None? && !ThreadHolds(pc) && PcOk(s, pc)
    ensures Sound(SetPc(Free(s, PcOf(s, t).l), t, pc))
  {
    assert ThreadOk(s, t, PcOf(s, t));
    MoveOk(s, t, pc);
    FreeOk(SetPc(s, t, pc), PcOf(s, t).l);
  }

  lemma {:induction false} UnlockAndLeaveOk(s: State, t: nat)
    requires Sound(s) && PcOf(s, t).MUnlock?
    ensures Sound(Leave(Free(s, PcOf(s, t).l), t))
  {
    UnlockOk(s, t, MStart(map[]));
    var s1 := SetPc(Free(s, PcOf(s, t).l), t, MStart(map[]));
    LeaveOk(s1, t);
    assert Leave(s1, t).threads == Leave(Free(s, PcOf(s, t).l), t).threads;
  }

  lemma {:induction false} JobUnlockOk(s: State, t: nat)
    requires Sound(s) && Enabled(s, JobUnlock(t))
    ensures Sound(JobStep(s, JobUnlock(t)))
  {
    var pc := PcOf(s, t);
    assert ThreadOk(s, t, pc);
    if pc.job.Update? {
      UnlockOk(s, t, MList(Some(pc.job.id), true));
    } else if pc.ok {
      UnlockOk(s, t, MDrop(pc.job.id));
    } else {
      UnlockAndLeaveOk(s, t);
    }
  }

  lemma {:induction false} DropKeepsThread(s: State, id: int, u: nat)
    requires Dead(s, id) && ThreadOk(s, u, PcOf(s, u))
    ensures ThreadOk(s.(locks := s.locks - {id}), u, PcOf(s, u))
  {
  }

  lemma {:induction false} DropLockOk(s: State, t: nat)
    requires Sound(s) && Enabled(s, DropLock(t))
    ensures Sound(JobStep(s, DropLock(t)))
  {
    var s' := s.(locks := s.locks - {PcOf(s, t).id});
    assert ThreadOk(s, t, PcOf(s, t));
    forall u: nat ensures ThreadOk(s', u, PcOf(s', u)) { DropKeepsThread(s, PcOf(s, t).id, u); }
    forall q: nat ensures ReaderOk(s', q) { assert ReaderOk(s, q); }
    forall j: int ensures IdOk(s', j) { assert IdOk(s, j); }
    LeaveOk(s', t);
  }

  // ---------- Starting readers ----------

  lemma {:induction false} StartSkipOk(s: State, t: nat, id: int)
    requires Sound(s) && Enabled(s, StartSkip(t, id))
    ensures Sound(StartStep(s, StartSkip(t, id)))
  {
    assert ThreadOk(s, t, PcOf(s, t));
    MoveOk(s, t, MStart(PcOf(s, t).starts - {id}));
  }

  lemma {:induction false} StartBuildOk(s: State, t: nat, id: int)
    requires Sound(s) && Enabled(s, StartBuild(t, id))
    ensures Sound(StartStep(s, StartBuild(t, id)))
  {
    assert ThreadOk(s, t, PcOf(s, t));
    MoveOk(s, t, PcOf(StartStep(s, StartBuild(t, id)), t));
  }

  lemma {:induction false} StartOk(s: State, a: Action)
    requires Sound(s) && Enabled(s, a)
    requires a.StartSkip? || a.StartBuild? || a.StartsDone?
    ensures Sound(StartStep(s, a))
  {
    if a.StartSkip? {
      StartSkipOk(s, a.t, a.id);
    } else if a.StartBuild? {
      StartBuildOk(s, a.t, a.id);
    } else {
      assert ThreadOk(s, a.t, PcOf(s, a.t));
      LeaveOk(s, a.t);
    }
  }

  lemma {:induction false} RegisterKeepsThreads(s: State, t: nat, u: nat)
    requires Sound(s) && PcOf(s, t).MBuilt?
    ensures ThreadOk(Registering(s, t), u, PcOf(s, u))
  {
    assert ThreadOk(s, t, PcOf(s, t)) && ThreadOk(s, u, PcOf(s, u));
    assert ReaderOk(s, s.nextReader);
  }

  lemma {:induction false} RegisterKeepsReaders(s: State, t: nat, r: nat)
    requires Sound(s) && PcOf(s, t).MBuilt? && PcOf(s, t).id !in s.runtimes
    ensures ReaderOk(Registering(s, t), r)
  {
    assert ThreadOk(s, t, PcOf(s, t)) && ReaderOk(s, r) && IdOk(s, PcOf(s, t).id);
  }

  lemma {:induction false} RegisteringOk(s: State, t: nat)
    requires Sound(s) && PcOf(s, t).MBuilt? && PcOf(s, t).id !in s.runtimes
    ensures Sound(Registering(s, t))
  {
    var s' := Registering(s, t);
    forall u: nat ensures ThreadOk(s', u, PcOf(s', u)) {
      RegisterKeepsThreads(s, t, u);
    }
    forall r: nat ensures ReaderOk(s', r) {
      RegisterKeepsReaders(s, t, r);
    }
    assert ReaderOk(s, s.nextReader);
    forall j: int ensures IdOk(s', j) { assert IdOk(s, j); }
  }

  lemma {:induction false} RegisteredMoves(s: State, t: nat)
    requires Sound(s) && PcOf(s, t).MBuilt?
    ensures Sound(SetPc(s, t, MStart(PcOf(s, t).starts)))
  {
    assert ThreadOk(s, t, PcOf(s, t));
    MoveOk(s, t, MStart(PcOf(s, t).starts));
  }

  lemma {:induction false} RegisterOk(s: State, t: nat)
    requires Sound(s) && Enabled(s, Register(t))
    ensures Sound(StartStep(s, Register(t)))
  {
    if PcOf(s, t).id in s.runtimes {
      RegisteredMoves(s, t);
    } else {
      RegisteringOk(s, t);
      RegisteredMoves(Registering(s, t), t);
    }
  }

  // ---------- Readers ----------

  lemma {:induction false} ReaderBeginOk(s: State, r: nat)
    requires Sound(s) && Enabled(s, ReaderBegin(r))
    ensures Sound(ReaderStep(s, ReaderBegin(r)))
  {
    var id := s.readers[r].id;
    WithLockOk(s, id);
    ReaderMoveOk(WithLock(s, id), r, RWait(LockFor(s, id)));
  }

  lemma {:induction false} ReaderAcquireOk(s: State, r: nat)
    requires Sound(s) && Enabled(s, ReaderAcquire(r))
    ensures Sound(ReaderStep(s, ReaderAcquire(r)))
  {
    var l := RpcOf(s, r).l;
    HoldOk(s, l, ReaderAgent(r));
    assert ReaderOk(s, r);
    ReaderMoveOk(Hold(s, l, ReaderAgent(r)), r, RHold(l));
  }

  lemma {:induction false} ReaderRoundOk(s: State, a: Action)
    requires Sound(s) && Enabled(s, a)
    requires a.ReaderCheckContext? || a.ReaderFetch? || a.ReaderStillDirect? || a.ReaderExit?
    ensures Sound(ReaderStep(s, a))
  {
    var pc := RpcOf(s, a.r);
    if a.ReaderCheckContext? {
      ReaderGoesOn(s, a.r, RReady(pc.l));
    } else if a.ReaderFetch? {
      ReaderGoesOn(s, a.r, RData(pc.l, a.n));
    } else if a.ReaderStillDirect? {
      ReaderGoesOn(s, a.r, RChecked(pc.l, pc.n));
    } else {
      ReaderMoveOk(s, a.r, RDone);
    }
  }

  lemma {:induction false} ReaderGoesOn(s: State, r: nat, pc: ReaderPc)
    requires Sound(s) && ReaderHolding(RpcOf(s, r)) && ReaderHolding(pc) && pc.l == RpcOf(s, r).l
    requires !RpcOf(s, r).RPublish? && !pc.RPublish?
    ensures Sound(SetRpc(s, r, pc))
  {
    assert ReaderOk(s, r);
    ReaderMoveOk(s, r, pc);
  }

  lemma {:induction false} ReaderApplyOk(s: State, r: nat)
    requires Sound(s) && Enabled(s, ReaderApply(r))
    ensures Sound(ReaderStep(s, ReaderApply(r)))
  {
    var reader := s.readers[r];
    assert ReaderOk(s, r);
    RecordOk(s, reader.id, FromReader(reader.row, reader.dsn));
    ReaderMoveOk(Record(s, reader.id, FromReader(reader.row, reader.dsn)), r, RPubWait(reader.pc.l, reader.pc.n - 1));
  }

  lemma {:induction false} ReaderReleaseOk(s: State, r: nat)
    requires Sound(s) && Enabled(s, ReaderRelease(r))
    ensures Sound(ReaderStep(s, ReaderRelease(r)))
  {
    assert ReaderOk(s, r);
    ReaderMoveOk(s, r, RIdle);
    FreeOk(SetRpc(s, r, RIdle), RpcOf(s, r).l);
  }

  // ---------- Every step ----------

  lemma {:induction false} SyncStepOk(s: State, a: Action)
    requires Sound(s) && Enabled(s, a) && IsSyncStep(a)
    ensures Sound(SyncStep(s, a))
  {
    match a
    case CreateSource(config) => CreateOk(s, config);
    case RunBegins => RunningOk(s, true);
    case SyncBegin(t, id) => SyncBeginOk(s, t, id);
    case SyncAcquire(t) => SyncAcquireOk(s, t);
    case SyncReadRow(t) => SyncReadRowOk(s, t);
    case SyncReadKey(t) => SyncReadKeyOk(s, t);
    case SyncFetch(t) => SyncFetchOk(s, t);
    case SyncCommit(t, changed) => SyncCommitOk(s, t, changed);
    case SyncRelease(t) => SyncReleaseOk(s, t);
  }

  lemma {:induction false} AskOk(s: State, t: nat, job: Job)
    requires Sound(s) && Enabled(s, Ask(t, job))
    ensures Sound(StopStep(s, Ask(t, job)))
  {
    assert ThreadOk(s, t, PcOf(s, t));
    assert IsConfigJob(job) ==> IdOk(s, job.id);
    MoveOk(s, t, MWant(job));
  }

  lemma {:induction false} StopStepOk(s: State, a: Action)
    requires Sound(s) && Enabled(s, a) && IsStopStep(a)
    ensures Sound(StopStep(s, a))
  {
    match a
    case Ask(t, job) => AskOk(s, t, job);
    case Enter(t) => EnterOk(s, t);
    case List(t) => ListOk(s, t);
    case ListFail(t) => LeaveOk(s, t);
    case Take(t, id) => TakeOk(s, t, id);
    case Cancel(t, r) => CancelOk(s, r);
    case Reap(t, r) => ReapOk(s, t, r);
    case StopsDone(t) => StopsDoneOk(s, t);
  }

  lemma {:induction false} JobStepOk(s: State, a: Action)
    requires Sound(s) && Enabled(s, a) && IsJobStep(a)
    ensures Sound(JobStep(s, a))
  {
    match a
    case JobAcquire(t) => JobAcquireOk(s, t);
    case JobCommit(t) => JobCommitOk(s, t);
    case JobFail(t) => JobFailOk(s, t);
    case JobUnlock(t) => JobUnlockOk(s, t);
    case DropLock(t) => DropLockOk(s, t);
  }

  lemma {:induction false} ReaderStepOk(s: State, a: Action)
    requires Sound(s) && Enabled(s, a) && IsReaderStep(a)
    ensures Sound(ReaderStep(s, a))
  {
    if a.ReaderBegin? {
      ReaderBeginOk(s, a.r);
    } else if a.ReaderAcquire? {
      ReaderAcquireOk(s, a.r);
    } else if a.ReaderApply? {
      ReaderApplyOk(s, a.r);
    } else if a.ReaderRelease? {
      ReaderReleaseOk(s, a.r);
    } else {
      ReaderRoundOk(s, a);
    }
  }

  // ---------- The map-change lock ----------

  /** A position that refers to the same locks and is not in the mutex, or the same position. */
  lemma {:induction false} PublishingKeepsPosition(s: State, publishing: Option<Agent>, u: nat, pc: Pc, x: Pc)
    requires ThreadOk(s, u, pc) && (Publishing(x) <==> publishing == Some(Thread(u)))
    requires x == pc || (LockRef(x) == LockRef(pc) && (ThreadHolds(x) ==> ThreadHolds(pc) && x.l == pc.l)
                         && !InMutex(pc) && (x.Idle? || x.SPublish? || x.SDone? || x.PubHold?))
    ensures ThreadOk(s.(publishing := publishing), u, x)
  {
  }

  /** The map-change lock is taken only when it is free, and left by its holder. */
  lemma {:induction false} TakeMapKeepsThread(s: State, t: nat, u: nat)
    requires (PcOf(s, t).SPubWait? || PcOf(s, t).PubWait?) && s.publishing.None?
    requires ThreadOk(s, t, PcOf(s, t)) && ThreadOk(s, u, PcOf(s, u))
    ensures var s' := SetPc(s.(publishing := Some(Thread(t))), t, InMap(PcOf(s, t))); ThreadOk(s', u, PcOf(s', u))
  {
    var pc := InMap(PcOf(s, t));
    var x := if u == t then pc else PcOf(s, u);
    PublishingKeepsPosition(s, Some(Thread(t)), u, PcOf(s, u), x);
    MoveKeepsPosition(s.(publishing := Some(Thread(t))), t, pc, u, x);
  }

  lemma {:induction false} TakeMapKeepsReader(s: State, t: nat, q: nat)
    requires (PcOf(s, t).SPubWait? || PcOf(s, t).PubWait?) && s.publishing.None?
    requires ThreadOk(s, t, PcOf(s, t)) && ReaderOk(s, q)
    ensures ReaderOk(SetPc(s.(publishing := Some(Thread(t))), t, InMap(PcOf(s, t))), q)
  {
  }

  lemma {:induction false} TakeMapOk(s: State, t: nat)
    requires Sound(s) && Enabled(s, TakeMap(t))
    ensures Sound(PublishStep(s, TakeMap(t)))
  {
    var s' := PublishStep(s, TakeMap(t));
    assert ThreadOk(s, t, PcOf(s, t));
    forall u: nat ensures ThreadOk(s', u, PcOf(s', u)) {
      assert ThreadOk(s, u, PcOf(s, u));
      TakeMapKeepsThread(s, t, u);
    }
    forall q: nat ensures ReaderOk(s', q) {
      assert ReaderOk(s, q);
      TakeMapKeepsReader(s, t, q);
    }
    forall j: int ensures IdOk(s', j) { assert IdOk(s, j); }
  }

  lemma {:induction false} LeaveMapKeepsThread(s: State, t: nat, u: nat)
    requires Publishing(PcOf(s, t))
    requires ThreadOk(s, t, PcOf(s, t)) && ThreadOk(s, u, PcOf(s, u))
    ensures var s' := SetPc(s.(publishing := None), t, AfterMap(PcOf(s, t))); ThreadOk(s', u, PcOf(s', u))
  {
    var pc := AfterMap(PcOf(s, t));
    var x := if u == t then pc else PcOf(s, u);
    PublishingKeepsPosition(s, None, u, PcOf(s, u), x);
    MoveKeepsPosition(s.(publishing := None), t, pc, u, x);
  }

  lemma {:induction false} LeaveMapKeepsReader(s: State, t: nat, q: nat)
    requires Publishing(PcOf(s, t))
    requires ThreadOk(s, t, PcOf(s, t)) && ReaderOk(s, q)
    ensures ReaderOk(SetPc(s.(publishing := None), t, AfterMap(PcOf(s, t))), q)
  {
  }

  lemma {:induction false} LeaveMapOk(s: State, t: nat)
    requires Sound(s) && Enabled(s, LeaveMap(t))
    ensures Sound(PublishStep(s, LeaveMap(t)))
  {
    var s' := PublishStep(s, LeaveMap(t));
    assert ThreadOk(s, t, PcOf(s, t));
    forall u: nat ensures ThreadOk(s', u, PcOf(s', u)) {
      assert ThreadOk(s, u, PcOf(s, u));
      LeaveMapKeepsThread(s, t, u);
    }
    forall q: nat ensures ReaderOk(s', q) {
      assert ReaderOk(s, q);
      LeaveMapKeepsReader(s, t, q);
    }
    forall j: int ensures IdOk(s', j) { assert IdOk(s, j); }
  }

  lemma {:induction false} ReaderTakeMapKeepsThread(s: State, r: nat, u: nat)
    requires RpcOf(s, r).RPubWait? && s.publishing.None?
    requires ReaderOk(s, r) && ThreadOk(s, u, PcOf(s, u))
    ensures var s' := SetRpc(s.(publishing := Some(ReaderAgent(r))), r, RPublish(RpcOf(s, r).l, RpcOf(s, r).n));
      ThreadOk(s', u, PcOf(s', u))
  {
  }

  lemma {:induction false} ReaderTakeMapKeepsReader(s: State, r: nat, q: nat)
    requires RpcOf(s, r).RPubWait? && s.publishing.None?
    requires ReaderOk(s, r) && ReaderOk(s, q)
    ensures var s' := SetRpc(s.(publishing := Some(ReaderAgent(r))), r, RPublish(RpcOf(s, r).l, RpcOf(s, r).n));
      ReaderOk(s', q)
  {
  }

  lemma {:induction false} ReaderTakeMapOk(s: State, r: nat)
    requires Sound(s) && Enabled(s, ReaderTakeMap(r))
    ensures Sound(PublishStep(s, ReaderTakeMap(r)))
  {
    var s' := PublishStep(s, ReaderTakeMap(r));
    assert ReaderOk(s, r);
    forall u: nat ensures ThreadOk(s', u, PcOf(s', u)) {
      assert ThreadOk(s, u, PcOf(s, u));
      ReaderTakeMapKeepsThread(s, r, u);
    }
    forall q: nat ensures ReaderOk(s', q) {
      assert ReaderOk(s, q);
      ReaderTakeMapKeepsReader(s, r, q);
    }
    forall j: int ensures IdOk(s', j) { assert IdOk(s, j); }
  }

  lemma {:induction false} ReaderLeaveMapKeepsThread(s: State, r: nat, u: nat)
    requires RpcOf(s, r).RPublish?
    requires ReaderOk(s, r) && ThreadOk(s, u, PcOf(s, u))
    ensures var s' := SetRpc(s.(publishing := None), r, RData(RpcOf(s, r).l, RpcOf(s, r).n));
      ThreadOk(s', u, PcOf(s', u))
  {
  }

  lemma {:induction false} ReaderLeaveMapKeepsReader(s: State, r: nat, q: nat)
    requires RpcOf(s, r).RPublish?
    requires ReaderOk(s, r) && ReaderOk(s, q)
    ensures var s' := SetRpc(s.(publishing := None), r, RData(RpcOf(s, r).l, RpcOf(s, r).n));
      ReaderOk(s', q)
  {
  }

  lemma {:induction false} ReaderLeaveMapOk(s: State, r: nat)
    requires Sound(s) && Enabled(s, ReaderLeaveMap(r))
    ensures Sound(PublishStep(s, ReaderLeaveMap(r)))
  {
    var s' := PublishStep(s, ReaderLeaveMap(r));
    assert ReaderOk(s, r);
    forall u: nat ensures ThreadOk(s', u, PcOf(s', u)) {
      assert ThreadOk(s, u, PcOf(s, u));
      ReaderLeaveMapKeepsThread(s, r, u);
    }
    forall q: nat ensures ReaderOk(s', q) {
      assert ReaderOk(s, q);
      ReaderLeaveMapKeepsReader(s, r, q);
    }
    forall j: int ensures IdOk(s', j) { assert IdOk(s, j); }
  }

  lemma {:induction false} PublishStepOk(s: State, a: Action)
    requires Sound(s) && Enabled(s, a) && IsPublishStep(a)
    ensures Sound(PublishStep(s, a))
  {
    if a.AskPublish? {
      assert ThreadOk(s, a.t, PcOf(s, a.t));
      MoveOk(s, a.t, PubWait);
    } else if a.TakeMap? {
      TakeMapOk(s, a.t);
    } else if a.LeaveMap? {
      LeaveMapOk(s, a.t);
    } else if a.ReaderTakeMap? {
      ReaderTakeMapOk(s, a.r);
    } else {
      ReaderLeaveMapOk(s, a.r);
    }
  }

  lemma {:induction false} StepOk(s: State, a: Action)
    requires Sound(s) && Enabled(s, a)
    ensures Sound(Step(s, a))
  {
    if IsSyncStep(a) {
      SyncStepOk(s, a);
    } else if IsStopStep(a) {
      StopStepOk(s, a);
    } else if IsJobStep(a) {
      JobStepOk(s, a);
    } else if a.Register? {
      RegisterOk(s, a.t);
    } else if IsStartStep(a) {
      StartOk(s, a);
    } else if IsReaderStep(a) {
      ReaderStepOk(s, a);
    } else {
      PublishStepOk(s, a);
    }
  }
}
