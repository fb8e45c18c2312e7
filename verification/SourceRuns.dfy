/** What all interleavings of synchronisations, readers, updates and deletions keep:
    fresh commits, one worker and one reader per source, and final deletions. */
module SourceRuns {
  import opened Text
  import opened SourceLifecycle
  import opened SourceSteps

  // ---------- Runs ----------

  /** s' is reached from s by executing actions one after the other. */
  ghost predicate Reaches(s: State, actions: seq<Action>, s': State)
    decreases |actions|
  {
    if |actions| == 0 then s == s'
    else Enabled(s, actions[0]) && Reaches(Step(s, actions[0]), actions[1..], s')
  }

  lemma {:induction false} ReachesOk(s: State, actions: seq<Action>, s': State)
    requires Sound(s) && Reaches(s, actions, s')
    ensures Sound(s')
    decreases |actions|
  {
    if |actions| > 0 {
      StepOk(s, actions[0]);
      ReachesOk(Step(s, actions[0]), actions[1..], s');
    }
  }

  /** Configuration freshness: in every interleaving, every committed snapshot or delta was
      fetched under the configuration in force at its commit, a snapshot from the URL that one
      names, a delta by a reader it asks for. */
  lemma {:induction false} CommitsAreFresh(actions: seq<Action>, s: State, i: nat)
    requires Reaches(START, actions, s) && i < |s.ledger|
    ensures var config := s.ledger[i].inForce;
      match s.ledger[i].evidence
      case FromApi(kind, baseUrl, apiKey) =>
        && config.row.kind == kind && config.row.baseUrl == baseUrl && config.apiKey == Some(apiKey)
        && TrimSpace(baseUrl) != ""
      case FromReader(row, dsn) =>
        && config.row.kind == row.kind && config.row.authDir == row.authDir && config.row.dbSecret == row.dbSecret
        && config.row.enabled
        && (if row.kind == "sub2api" then config.dsn == dsn && TrimSpace(row.dbSecret) != ""
            else row.kind == "cpa" && TrimSpace(row.authDir) != "")
  {
    ReachesOk(START, actions, s);
  }

  /** Whatever reader is alive, its source is there, enabled, names the path its kind reads, and
      has the configuration the reader was built from. */
  lemma {:induction false} ReadersAreWanted(actions: seq<Action>, s: State, r: nat)
    requires Reaches(START, actions, s) && Alive(s, r)
    ensures s.readers[r].id in s.sources
    ensures var row, config := s.readers[r].row, s.sources[s.readers[r].id];
      && config.row.kind == row.kind && config.row.authDir == row.authDir && config.row.dbSecret == row.dbSecret
      && config.row.enabled
      && (if row.kind == "sub2api" then config.dsn == s.readers[r].dsn && TrimSpace(row.dbSecret) != ""
          else row.kind == "cpa" && TrimSpace(row.authDir) != "")
  {
    ReachesOk(START, actions, s);
    assert ReaderOk(s, r);
  }

  /** Once a job has stopped the readers it takes out, none is left of the source it updates or
      deletes, none concerned by a forced reconciliation, and at shutdown none at all. */
  lemma {:induction false} StopsAreComplete(actions: seq<Action>, s: State, t: nat, r: nat)
    requires Reaches(START, actions, s) && Enabled(s, StopsDone(t)) && Alive(s, r)
    ensures match PcOf(s, t).job
      case Update(id, _) => s.readers[r].id != id
      case Delete(id) => s.readers[r].id != id
      case Reconcile(only, force) => force ==> only.Some? && only.value != s.readers[r].id
      case Shutdown => false
  {
    ReachesOk(START, actions, s);
    NoneLeft(s, t, r);
  }

  /** However an update ends, its source is reconciled by force before the mutex is left. */
  lemma {:induction false} UpdateIsReconciled(actions: seq<Action>, s: State, t: nat)
    requires Reaches(START, actions, s) && PcOf(s, t).MUnlock? && PcOf(s, t).job.Update?
    ensures var s' := JobStep(s, JobUnlock(t));
      PcOf(s', t) == MList(Some(PcOf(s, t).job.id), true) && s'.mutex == Some(t)
  {
    ReachesOk(START, actions, s);
    assert ThreadOk(s, t, PcOf(s, t));
    UnlockedUpdate(s, t);
  }

  lemma {:induction false} UnlockedUpdate(s: State, t: nat)
    requires PcOf(s, t).MUnlock? && PcOf(s, t).job.Update?
    ensures var s' := JobStep(s, JobUnlock(t));
      PcOf(s', t) == MList(Some(PcOf(s, t).job.id), true) && s'.mutex == s.mutex
  {
  }

  /** After a deletion exactly the lock object of its source is dropped. */
  lemma {:induction false} DeletionDropsLock(actions: seq<Action>, s: State, t: nat)
    requires Reaches(START, actions, s) && PcOf(s, t).MDrop?
    ensures PcOf(s, t).id !in s.sources && JobStep(s, DropLock(t)).locks == s.locks - {PcOf(s, t).id}
  {
    ReachesOk(START, actions, s);
    assert ThreadOk(s, t, PcOf(s, t));
    DroppedLock(s, t);
  }

  lemma {:induction false} DroppedLock(s: State, t: nat)
    requires PcOf(s, t).MDrop?
    ensures JobStep(s, DropLock(t)).locks == s.locks - {PcOf(s, t).id}
  {
  }

  /** A reconciliation takes out readers it concerns only, and, unless it is forced, none that is
      alive. */
  lemma {:induction false} ListTakesOnly(actions: seq<Action>, s: State, t: nat, only: Option<int>, force: bool, r: nat)
    requires Reaches(START, actions, s) && PcOf(s, t) == MList(only, force)
    ensures var pc := PcOf(StopStep(s, List(t)), t);
      && pc.MStop?
      && (forall id :: id in pc.todo ==> only == None || only == Some(id))
      && (Alive(s, r) && !force ==> s.readers[r].id !in pc.todo)
  {
    ReachesOk(START, actions, s);
    assert ThreadOk(s, t, PcOf(s, t));
    ListPlan(s, t);
    if Alive(s, r) {
      KeepsWanted(s, only, r);
    }
  }

  lemma {:induction false} ListPlan(s: State, t: nat)
    requires PcOf(s, t).MList?
    ensures var pc := PcOf(StopStep(s, List(t)), t);
      pc.MStop? && pc.todo == ToStop(s, PcOf(s, t).only, PcOf(s, t).force)
  {
  }

  lemma {:induction false} KeepsWanted(s: State, only: Option<int>, r: nat)
    requires Sound(s) && Alive(s, r) && s.mutex.Some? && !PcOf(s, s.mutex.value).MStop?
    ensures s.readers[r].id !in ToStop(s, only, false)
  {
    assert ReaderOk(s, r);
  }

  /** Readers are stopped one after the other, except at shutdown. */
  lemma {:induction false} OneStopAtATime(actions: seq<Action>, s: State, t: nat, r1: nat, r2: nat)
    requires Reaches(START, actions, s) && PcOf(s, t).MStop? && PcOf(s, t).job != Shutdown
    requires r1 in PcOf(s, t).taken && r2 in PcOf(s, t).taken
    ensures r1 == r2
  {
    ReachesOk(START, actions, s);
    assert ThreadOk(s, t, PcOf(s, t));
  }

  /** The second look at the stored row before each delta never fails: the locks alone keep a
      reader's configuration in force as long as it is alive. */
  lemma {:induction false} StillDirectNeverFails(actions: seq<Action>, s: State, r: nat)
    requires Reaches(START, actions, s) && Alive(s, r)
    ensures StillDirect(s, s.readers[r].id, s.readers[r].row)
  {
    ReachesOk(START, actions, s);
    assert ReaderOk(s, r);
  }

  lemma {:induction false} NoneLeft(s: State, t: nat, r: nat)
    requires ThreadOk(s, t, PcOf(s, t)) && ReaderOk(s, r) && Enabled(s, StopsDone(t)) && Alive(s, r)
    ensures !MustStop(PcOf(s, t).job, s.readers[r].id)
  {
  }

  lemma {:induction false} SameReader(s: State, r1: nat, r2: nat)
    requires ReaderOk(s, r1) && ReaderOk(s, r2)
    requires s.mutex.Some? ==> ThreadOk(s, s.mutex.value, PcOf(s, s.mutex.value))
    requires Alive(s, r1) && Alive(s, r2) && s.readers[r1].id == s.readers[r2].id
    ensures r1 == r2
  {
  }

  /** At most one reader of a source is alive at any time. */
  lemma {:induction false} OneReaderPerSource(actions: seq<Action>, s: State, r1: nat, r2: nat)
    requires Reaches(START, actions, s)
    requires Alive(s, r1) && Alive(s, r2) && s.readers[r1].id == s.readers[r2].id
    ensures r1 == r2
  {
    ReachesOk(START, actions, s);
    if s.mutex.Some? {
      assert ThreadOk(s, s.mutex.value, PcOf(s, s.mutex.value));
    }
    SameReader(s, r1, r2);
  }

  /** The source an agent is working on under its lock. */
  function WorksOn(s: State, a: Agent): Option<int> {
    match a
    case Thread(t) =>
      var pc := PcOf(s, t);
      if SyncHolding(pc) then Some(pc.id)
      else if (pc.MLockHeld? || pc.MUnlock?) && IsConfigJob(pc.job) then Some(pc.job.id)
      else None
    case ReaderAgent(r) => if ReaderHolding(RpcOf(s, r)) then Some(s.readers[r].id) else None
  }

  /** The lock an agent works under. */
  lemma {:induction false} WorksUnderRegisteredLock(s: State, a: Agent)
    requires Sound(s) && WorksOn(s, a).Some? && WorksOn(s, a).value in s.sources
    ensures var id := WorksOn(s, a).value; id in s.locks && s.locks[id] in s.held && s.held[s.locks[id]] == a
  {
    match a
    case Thread(t) => assert ThreadOk(s, t, PcOf(s, t));
    case ReaderAgent(r) => assert ReaderOk(s, r);
  }

  /** Full synchronisations, readers, updates and deletions of one source never overlap. */
  lemma {:induction false} OneWorkerPerSource(actions: seq<Action>, s: State, a: Agent, b: Agent)
    requires Reaches(START, actions, s)
    requires WorksOn(s, a).Some? && WorksOn(s, a) == WorksOn(s, b) && WorksOn(s, a).value in s.sources
    ensures a == b
  {
    ReachesOk(START, actions, s);
    WorksUnderRegisteredLock(s, a);
    WorksUnderRegisteredLock(s, b);
  }

  // ---------- Deletion is final ----------

  /** A step after a deletion adds nothing for the deleted source. */
  predicate StaysDead(s: State, s': State, id: int) {
    && Dead(s', id) && s.ledger <= s'.ledger
    && forall i :: |s.ledger| <= i < |s'.ledger| ==> s'.ledger[i].id != id
  }

  lemma {:induction false} SyncStepKeepsDead(s: State, a: Action, id: int)
    requires Enabled(s, a) && IsSyncStep(a) && Dead(s, id)
    ensures StaysDead(s, SyncStep(s, a), id)
  {
  }

  lemma {:induction false} ReaderStepKeepsDead(s: State, a: Action, id: int)
    requires Enabled(s, a) && IsReaderStep(a) && Dead(s, id)
    ensures StaysDead(s, ReaderStep(s, a), id)
  {
  }

  /** The two states agree on the sources and the ledger. */
  predicate SameSources(s: State, s': State) {
    s'.sources == s.sources && s'.nextId == s.nextId && s'.ledger == s.ledger
  }

  lemma {:induction false} StopsDoneKeepsSources(s: State, t: nat)
    requires Enabled(s, StopsDone(t))
    ensures SameSources(s, StopStep(s, StopsDone(t)))
  {
    var job := PcOf(s, t).job;
    assert IsConfigJob(job) ==> SameSources(s, WithLock(s, job.id));
  }

  /** Entering the mutex and stopping readers leave the sources and the ledger alone. */
  lemma {:induction false} StopStepKeepsSources(s: State, a: Action)
    requires Enabled(s, a) && IsStopStep(a)
    ensures SameSources(s, StopStep(s, a))
  {
    if a.StopsDone? {
      StopsDoneKeepsSources(s, a.t);
    } else if a.Take? {
      assert PcOf(s, a.t).MStop?;
    } else if a.Enter? {
      assert StopStep(s, a) == EnterStep(s, a.t);
    }
  }

  lemma {:induction false} CommitKeepsDead(s: State, job: Job, id: int)
    requires Dead(s, id)
    ensures Dead(CommitConfig(s, job), id) && CommitConfig(s, job).ledger == s.ledger
  {
  }

  lemma {:induction false} JobStepKeepsSources(s: State, a: Action)
    requires Enabled(s, a) && IsJobStep(a) && !a.JobCommit?
    ensures SameSources(s, JobStep(s, a))
  {
  }

  lemma {:induction false} JobStepKeepsDead(s: State, a: Action, id: int)
    requires Enabled(s, a) && IsJobStep(a) && Dead(s, id)
    ensures StaysDead(s, JobStep(s, a), id)
  {
    if a.JobCommit? {
      CommitKeepsDead(s, PcOf(s, a.t).job, id);
    } else {
      JobStepKeepsSources(s, a);
    }
  }

  lemma {:induction false} StartStepKeepsDead(s: State, a: Action, id: int)
    requires Enabled(s, a) && IsStartStep(a) && Dead(s, id)
    ensures StaysDead(s, StartStep(s, a), id)
  {
  }

  lemma {:induction false} PublishStepKeepsSources(s: State, a: Action)
    requires Enabled(s, a) && IsPublishStep(a)
    ensures SameSources(s, PublishStep(s, a))
  {
  }

  lemma {:induction false} StepKeepsDead(s: State, a: Action, id: int)
    requires Enabled(s, a) && Dead(s, id)
    ensures StaysDead(s, Step(s, a), id)
  {
    if IsSyncStep(a) {
      SyncStepKeepsDead(s, a, id);
    } else if IsReaderStep(a) {
      ReaderStepKeepsDead(s, a, id);
    } else if IsStopStep(a) {
      StopStepKeepsSources(s, a);
    } else if IsJobStep(a) {
      JobStepKeepsDead(s, a, id);
    } else if IsStartStep(a) {
      StartStepKeepsDead(s, a, id);
    } else {
      PublishStepKeepsSources(s, a);
    }
  }

  lemma {:induction false} DeadForever(s: State, actions: seq<Action>, s': State, id: int)
    requires Reaches(s, actions, s') && Dead(s, id)
    ensures StaysDead(s, s', id)
    decreases |actions|
  {
    if |actions| > 0 {
      StepKeepsDead(s, actions[0], id);
      DeadForever(Step(s, actions[0]), actions[1..], s', id);
    }
  }

  /** Once a deletion has committed, no snapshot or delta of that source is ever committed
      again, although its lock object is dropped. */
  lemma {:induction false} NothingAfterDeletion(s1: State, actions: seq<Action>, s2: State, id: int)
    requires Dead(s1, id) && Reaches(s1, actions, s2)
    ensures id !in s2.sources && s1.ledger <= s2.ledger
    ensures forall i :: |s1.ledger| <= i < |s2.ledger| ==> s2.ledger[i].id != id
  {
    DeadForever(s1, actions, s2, id);
  }
}
