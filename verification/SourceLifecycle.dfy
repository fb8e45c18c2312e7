/** The life cycle of synchronisation sources: full synchronisations, incremental
    readers, reconciliation, configuration updates and deletion, interleaved at
    every lock and every database access.

    A source's work is serialised by a per-source lock that is looked up in a
    registry; the registry drops the lock object when the source is deleted.
    Starting and stopping readers is serialised by the reconcile mutex. */
module SourceLifecycle {
  import opened Text

  // ---------- Configuration ----------

  /** The configured columns of a source. */
  datatype Row = Row(kind: string, baseUrl: string, authDir: string, dbSecret: string, enabled: bool)

  /** A row with the secrets stored for it. */
  datatype Config = Config(row: Row, apiKey: Option<string>, dsn: Option<string>)

  const CPA := "cpa"
  const SUB2API := "sub2api"

  predicate HasIncrementalPath(row: Row) {
    if row.kind == SUB2API then TrimSpace(row.dbSecret) != ""
    else row.kind == CPA && TrimSpace(row.authDir) != ""
  }

  predicate Wanted(row: Row) { row.enabled && HasIncrementalPath(row) }

  predicate SameDirect(a: Row, b: Row) {
    a.kind == b.kind && a.authDir == b.authDir && a.dbSecret == b.dbSecret
  }

  /** What a snapshot or delta was fetched with. */
  datatype Evidence = FromApi(kind: string, baseUrl: string, apiKey: string) | FromReader(row: Row, dsn: Option<string>)

  /** The evidence is the configuration c. */
  predicate FetchedUnder(e: Evidence, c: Config) {
    match e
    case FromApi(kind, baseUrl, apiKey) => c.row.kind == kind && c.row.baseUrl == baseUrl && c.apiKey == Some(apiKey)
    case FromReader(row, dsn) => SameDirect(c.row, row) && (row.kind == SUB2API ==> c.dsn == dsn)
  }

  /** The configuration asks for what was fetched: a URL, or readers. */
  predicate Entitled(e: Evidence, c: Config) {
    match e
    case FromApi(_, baseUrl, _) => TrimSpace(baseUrl) != ""
    case FromReader(_, _) => Wanted(c.row)
  }

  /** A committed snapshot or delta, with the configuration in force at the commit. */
  datatype Entry = Entry(id: int, evidence: Evidence, inForce: Config)

  // ---------- Agents ----------

  type LockId = nat

  /** n: how many fetched accounts are still to be applied. */
  datatype ReaderPc =
    | RIdle
    | RWait(l: LockId)
    | RHold(l: LockId)
    | RReady(l: LockId)
    | RData(l: LockId, n: nat)
    | RChecked(l: LockId, n: nat)
    | RPubWait(l: LockId, n: nat)
    | RPublish(l: LockId, n: nat)
    | RDone

  /** An incremental reader with the configuration it was built from. */
  datatype Reader = Reader(id: int, row: Row, dsn: Option<string>, cancelled: bool, pc: ReaderPc)

  datatype Job =
    | Update(id: int, config: Config)
    | Delete(id: int)
    | Reconcile(only: Option<int>, force: bool)
    | Shutdown

  datatype Pc =
    | Idle
    // a full synchronisation
    | SWait(id: int, l: LockId)
    | SHold(id: int, l: LockId)
    | SRow(id: int, l: LockId, row: Row)
    | SKey(id: int, l: LockId, row: Row, key: string)
    | SData(id: int, l: LockId, row: Row, key: string)
    | SPubWait(id: int, l: LockId)
    | SPublish(id: int, l: LockId)
    | SDone(id: int, l: LockId)
    // a handler that has committed a change of the account map
    | PubWait
    | PubHold
    // a job under the reconcile mutex
    | MWant(job: Job)
    | MList(only: Option<int>, force: bool)
    | MStop(job: Job, todo: set<int>, taken: set<nat>, desired: map<int, Row>)
    | MLockWait(job: Job, l: LockId)
    | MLockHeld(job: Job, l: LockId)
    | MUnlock(job: Job, l: LockId, ok: bool)
    | MDrop(id: int)
    | MStart(starts: map<int, Row>)
    | MBuilt(starts: map<int, Row>, id: int, row: Row, dsn: Option<string>)

  datatype Agent = Thread(t: nat) | ReaderAgent(r: nat)

  datatype State = State(
    sources: map<int, Config>, nextId: int,
    locks: map<int, LockId>, nextLock: LockId, held: map<LockId, Agent>,
    mutex: Option<nat>, publishing: Option<Agent>, running: bool,
    runtimes: map<int, nat>, readers: map<nat, Reader>, nextReader: nat,
    threads: map<nat, Pc>,
    ledger: seq<Entry>)

  const START := State(map[], 1, map[], 0, map[], None, None, false, map[], map[], 0, map[], [])

  function PcOf(s: State, t: nat): Pc { if t in s.threads then s.threads[t] else Idle }

  function RpcOf(s: State, r: nat): ReaderPc { if r in s.readers then s.readers[r].pc else RDone }

  datatype Action =
    | CreateSource(config: Config)
    | RunBegins
    | SyncBegin(t: nat, id: int)
    | SyncAcquire(t: nat)
    | SyncReadRow(t: nat)
    | SyncReadKey(t: nat)
    | SyncFetch(t: nat)
    | SyncCommit(t: nat, changed: bool)
    | SyncRelease(t: nat)
    | Ask(t: nat, job: Job)
    | Enter(t: nat)
    | List(t: nat)
    | ListFail(t: nat)
    | Take(t: nat, id: int)
    | Cancel(t: nat, r: nat)
    | Reap(t: nat, r: nat)
    | StopsDone(t: nat)
    | JobAcquire(t: nat)
    | JobCommit(t: nat)
    | JobFail(t: nat)
    | JobUnlock(t: nat)
    | DropLock(t: nat)
    | StartSkip(t: nat, id: int)
    | StartBuild(t: nat, id: int)
    | Register(t: nat)
    | StartsDone(t: nat)
    | ReaderBegin(r: nat)
    | ReaderAcquire(r: nat)
    | ReaderCheckContext(r: nat)
    | ReaderFetch(r: nat, n: nat)
    | ReaderStillDirect(r: nat)
    | ReaderApply(r: nat)
    | ReaderRelease(r: nat)
    | ReaderExit(r: nat)
    | AskPublish(t: nat)
    | TakeMap(t: nat)
    | LeaveMap(t: nat)
    | ReaderTakeMap(r: nat)
    | ReaderLeaveMap(r: nat)

  // ---------- Steps ----------

  function SetPc(s: State, t: nat, pc: Pc): State { s.(threads := s.threads[t := pc]) }

  function SetReader(s: State, r: nat, reader: Reader): State { s.(readers := s.readers[r := reader]) }

  function SetRpc(s: State, r: nat, pc: ReaderPc): State
    requires r in s.readers
  {
    SetReader(s, r, s.readers[r].(pc := pc))
  }

  /** Look up the lock object of a source, making one if there is none. */
  function LockFor(s: State, id: int): LockId { if id in s.locks then s.locks[id] else s.nextLock }

  function WithLock(s: State, id: int): State {
    if id in s.locks then s else s.(locks := s.locks[id := s.nextLock], nextLock := s.nextLock + 1)
  }

  function Hold(s: State, l: LockId, a: Agent): State { s.(held := s.held[l := a]) }

  function Free(s: State, l: LockId): State { s.(held := s.held - {l}) }

  /** Leave the reconcile mutex. */
  function Leave(s: State, t: nat): State { SetPc(s.(mutex := None), t, Idle) }

  function Desired(s: State): map<int, Row> {
    map id | id in s.sources && Wanted(s.sources[id].row) :: s.sources[id].row
  }

  /** runtimeMatches: the reader was built from this configuration, as far as the row shows. */
  predicate Matches(s: State, id: int, row: Row) {
    id in s.runtimes && s.runtimes[id] in s.readers
    && s.readers[s.runtimes[id]].id == id && SameDirect(s.readers[s.runtimes[id]].row, row)
  }

  predicate Concerns(only: Option<int>, id: int) { only.None? || only.value == id }

  function ToStop(s: State, only: Option<int>, force: bool): set<int> {
    set id | id in s.runtimes && Concerns(only, id)
             && (force || id !in Desired(s) || !Matches(s, id, Desired(s)[id]))
  }

  function ToStart(s: State, only: Option<int>): map<int, Row> {
    map id | id in Desired(s) && Concerns(only, id) :: Desired(s)[id]
  }

  /** sourceStillDirect: the stored row still asks for the reader's configuration. */
  predicate StillDirect(s: State, id: int, row: Row) {
    id in s.sources && Wanted(s.sources[id].row) && SameDirect(s.sources[id].row, row)
  }

  predicate SyncHolding(pc: Pc) {
    pc.SHold? || pc.SRow? || pc.SKey? || pc.SData? || pc.SPubWait? || pc.SPublish? || pc.SDone?
  }

  predicate ReaderHolding(pc: ReaderPc) {
    pc.RHold? || pc.RReady? || pc.RData? || pc.RChecked? || pc.RPubWait? || pc.RPublish?
  }

  /** The agent holds the map-change lock. */
  predicate Publishing(pc: Pc) { pc.SPublish? || pc.PubHold? }

  predicate Alive(s: State, r: nat) { r in s.readers && !s.readers[r].pc.RDone? }

  /** A job names a source its handler has just found. */
  predicate JobPossible(s: State, job: Job) {
    (job.Update? || job.Delete?) ==> job.id in s.sources
  }

  predicate Enabled(s: State, a: Action) {
    match a
    case CreateSource(_) => true
    case RunBegins => true
    case SyncBegin(t, _) => PcOf(s, t).Idle?
    case SyncAcquire(t) => PcOf(s, t).SWait? && PcOf(s, t).l !in s.held
    case SyncReadRow(t) => PcOf(s, t).SHold? && PcOf(s, t).id in s.sources
                           && TrimSpace(s.sources[PcOf(s, t).id].row.baseUrl) != ""
    case SyncReadKey(t) => PcOf(s, t).SRow? && PcOf(s, t).id in s.sources && s.sources[PcOf(s, t).id].apiKey.Some?
    case SyncFetch(t) => PcOf(s, t).SKey?
    case SyncCommit(t, _) => PcOf(s, t).SData? && PcOf(s, t).id in s.sources
    case SyncRelease(t) => SyncHolding(PcOf(s, t)) && !PcOf(s, t).SPubWait? && !PcOf(s, t).SPublish?
    case Ask(t, job) => PcOf(s, t).Idle? && JobPossible(s, job)
    case Enter(t) => PcOf(s, t).MWant? && s.mutex.None?
    case List(t) => PcOf(s, t).MList?
    case ListFail(t) => PcOf(s, t).MList?
    case Take(t, id) => PcOf(s, t).MStop? && id in PcOf(s, t).todo
      && (PcOf(s, t).taken == {} || PcOf(s, t).job.Shutdown?)
    case Cancel(t, r) => PcOf(s, t).MStop? && r in PcOf(s, t).taken && r in s.readers && !s.readers[r].cancelled
                         && (PcOf(s, t).todo == {} || !PcOf(s, t).job.Shutdown?)
    case Reap(t, r) => PcOf(s, t).MStop? && r in PcOf(s, t).taken && r in s.readers
                       && s.readers[r].cancelled && s.readers[r].pc.RDone?
    case StopsDone(t) => PcOf(s, t).MStop? && PcOf(s, t).todo == {} && PcOf(s, t).taken == {}
    case JobAcquire(t) => PcOf(s, t).MLockWait? && PcOf(s, t).l !in s.held
    case JobCommit(t) => PcOf(s, t).MLockHeld?
    case JobFail(t) => PcOf(s, t).MLockHeld?
    case JobUnlock(t) => PcOf(s, t).MUnlock?
    case DropLock(t) => PcOf(s, t).MDrop?
    case StartSkip(t, id) => PcOf(s, t).MStart? && id in PcOf(s, t).starts
    case StartBuild(t, id) =>
      PcOf(s, t).MStart? && id in PcOf(s, t).starts && s.running && !Matches(s, id, PcOf(s, t).starts[id])
      && (PcOf(s, t).starts[id].kind == SUB2API ==> id in s.sources && s.sources[id].dsn.Some?)
    case Register(t) => PcOf(s, t).MBuilt?
    case StartsDone(t) => PcOf(s, t).MStart? && PcOf(s, t).starts == map[]
    case ReaderBegin(r) => RpcOf(s, r).RIdle?
    case ReaderAcquire(r) => RpcOf(s, r).RWait? && RpcOf(s, r).l !in s.held
    case ReaderCheckContext(r) => RpcOf(s, r).RHold? && !s.readers[r].cancelled
    case ReaderFetch(r, _) => RpcOf(s, r).RReady?
    case ReaderStillDirect(r) => RpcOf(s, r).RData? && RpcOf(s, r).n > 0
      && StillDirect(s, s.readers[r].id, s.readers[r].row)
    case ReaderApply(r) => RpcOf(s, r).RChecked? && RpcOf(s, r).n > 0 && s.readers[r].id in s.sources
    case ReaderRelease(r) => ReaderHolding(RpcOf(s, r)) && !RpcOf(s, r).RPubWait? && !RpcOf(s, r).RPublish?
    case ReaderExit(r) => RpcOf(s, r).RIdle?
    case AskPublish(t) => PcOf(s, t).Idle?
    case TakeMap(t) => (PcOf(s, t).SPubWait? || PcOf(s, t).PubWait?) && s.publishing.None?
    case LeaveMap(t) => Publishing(PcOf(s, t))
    case ReaderTakeMap(r) => RpcOf(s, r).RPubWait? && s.publishing.None?
    case ReaderLeaveMap(r) => RpcOf(s, r).RPublish?
  }

  function Record(s: State, id: int, e: Evidence): State
    requires id in s.sources
  {
    s.(ledger := s.ledger + [Entry(id, e, s.sources[id])])
  }

  predicate IsSyncStep(a: Action) {
    a.CreateSource? || a.RunBegins? || a.SyncBegin? || a.SyncAcquire?
    || a.SyncReadRow? || a.SyncReadKey? || a.SyncFetch? || a.SyncCommit?
    || a.SyncRelease?
  }

  predicate IsStopStep(a: Action) {
    a.Ask? || a.Enter? || a.List? || a.ListFail? || a.Take?
    || a.Cancel? || a.Reap? || a.StopsDone?
  }

  predicate IsJobStep(a: Action) {
    a.JobAcquire? || a.JobCommit? || a.JobFail? || a.JobUnlock?
    || a.DropLock?
  }

  predicate IsStartStep(a: Action) {
    a.StartSkip? || a.StartBuild? || a.Register? || a.StartsDone?
  }

  predicate IsReaderStep(a: Action) {
    a.ReaderBegin? || a.ReaderAcquire? || a.ReaderCheckContext? || a.ReaderFetch?
    || a.ReaderStillDirect? || a.ReaderApply? || a.ReaderRelease? || a.ReaderExit?
  }

  predicate IsPublishStep(a: Action) {
    a.AskPublish? || a.TakeMap? || a.LeaveMap? || a.ReaderTakeMap? || a.ReaderLeaveMap?
  }

  /** Where a job begins once it has the mutex. */
  function FirstPc(s: State, job: Job): Pc {
    match job
    case Reconcile(only, force) => MList(only, force)
    case Shutdown => MStop(job, s.runtimes.Keys, {}, map[])
    case _ => MStop(job, {job.id}, {}, map[])
  }

  function EnterStep(s: State, t: nat): State
    requires PcOf(s, t).MWant?
  {
    var job := PcOf(s, t).job;
    SetPc(s.(mutex := Some(t), running := s.running && !job.Shutdown?), t, FirstPc(s, job))
  }

  /** The reader of id, taken out of the registry by t. */
  function TakeStep(s: State, t: nat, id: int): State
    requires PcOf(s, t).MStop? && id in s.runtimes
  {
    SetPc(s.(runtimes := s.runtimes - {id}), t,
          PcOf(s, t).(todo := PcOf(s, t).todo - {id}, taken := PcOf(s, t).taken + {s.runtimes[id]}))
  }

  /** The configurations after an update or a deletion commits. */
  function CommitConfig(s: State, job: Job): State {
    if job.Update? && job.id in s.sources then s.(sources := s.sources[job.id := job.config])
    else if job.Delete? then s.(sources := s.sources - {job.id})
    else s
  }

  /** The reader built by t, put into the registry. */
  function Registering(s: State, t: nat): State
    requires PcOf(s, t).MBuilt?
  {
    var pc := PcOf(s, t);
    SetReader(s, s.nextReader, Reader(pc.id, pc.row, pc.dsn, false, RIdle))
      .(runtimes := s.runtimes[pc.id := s.nextReader], nextReader := s.nextReader + 1)
  }

  /** Sources appearing, and full synchronisations. */
  function SyncStep(s: State, a: Action): State
    requires Enabled(s, a) && IsSyncStep(a)
  {
    match a
    case CreateSource(config) => s.(sources := s.sources[s.nextId := config], nextId := s.nextId + 1)
    case RunBegins => s.(running := true)
    case SyncBegin(t, id) => SetPc(WithLock(s, id), t, SWait(id, LockFor(s, id)))
    case SyncAcquire(t) =>
      var pc := PcOf(s, t);
      SetPc(Hold(s, pc.l, Thread(t)), t, SHold(pc.id, pc.l))
    case SyncReadRow(t) =>
      var pc := PcOf(s, t);
      SetPc(s, t, SRow(pc.id, pc.l, s.sources[pc.id].row))
    case SyncReadKey(t) =>
      var pc := PcOf(s, t);
      SetPc(s, t, SKey(pc.id, pc.l, pc.row, s.sources[pc.id].apiKey.value))
    case SyncFetch(t) =>
      var pc := PcOf(s, t);
      SetPc(s, t, SData(pc.id, pc.l, pc.row, pc.key))
    case SyncCommit(t, changed) =>
      var pc := PcOf(s, t);
      SetPc(Record(s, pc.id, FromApi(pc.row.kind, pc.row.baseUrl, pc.key)), t,
            if changed then SPubWait(pc.id, pc.l) else SDone(pc.id, pc.l))
    case SyncRelease(t) => SetPc(Free(s, PcOf(s, t).l), t, Idle)
  }

  /** Entering the reconcile mutex, listing, and stopping readers. */
  function StopStep(s: State, a: Action): State
    requires Enabled(s, a) && IsStopStep(a)
  {
    match a
    case Ask(t, job) => SetPc(s, t, MWant(job))
    case Enter(t) => EnterStep(s, t)
    case List(t) =>
      var pc := PcOf(s, t);
      SetPc(s, t, MStop(Reconcile(pc.only, pc.force), ToStop(s, pc.only, pc.force), {}, ToStart(s, pc.only)))
    case ListFail(t) => Leave(s, t)
    case Take(t, id) =>
      var pc := PcOf(s, t);
      if id in s.runtimes then TakeStep(s, t, id)
      else SetPc(s, t, pc.(todo := pc.todo - {id}))
    case Cancel(t, r) => SetReader(s, r, s.readers[r].(cancelled := true))
    case Reap(t, r) => SetPc(s, t, PcOf(s, t).(taken := PcOf(s, t).taken - {r}))
    case StopsDone(t) =>
      var pc := PcOf(s, t);
      if pc.job.Update? || pc.job.Delete?
      then SetPc(WithLock(s, pc.job.id), t, MLockWait(pc.job, LockFor(s, pc.job.id)))
      else if pc.job.Reconcile? then SetPc(s, t, MStart(pc.desired))
      else Leave(s, t)
  }

  /** An update or deletion under the source lock. */
  function JobStep(s: State, a: Action): State
    requires Enabled(s, a) && IsJobStep(a)
  {
    match a
    case JobAcquire(t) =>
      var pc := PcOf(s, t);
      SetPc(Hold(s, pc.l, Thread(t)), t, MLockHeld(pc.job, pc.l))
    case JobCommit(t) =>
      var pc := PcOf(s, t);
      SetPc(CommitConfig(s, pc.job), t, MUnlock(pc.job, pc.l, true))
    case JobFail(t) => SetPc(s, t, MUnlock(PcOf(s, t).job, PcOf(s, t).l, false))
    case JobUnlock(t) =>
      var pc := PcOf(s, t);
      var s1 := Free(s, pc.l);
      if pc.job.Update? then SetPc(s1, t, MList(Some(pc.job.id), true))
      else if pc.job.Delete? && pc.ok then SetPc(s1, t, MDrop(pc.job.id))
      else Leave(s1, t)
    case DropLock(t) => Leave(s.(locks := s.locks - {PcOf(s, t).id}), t)
  }

  /** Building and registering readers. */
  function StartStep(s: State, a: Action): State
    requires Enabled(s, a) && IsStartStep(a)
  {
    match a
    case StartSkip(t, id) => SetPc(s, t, MStart(PcOf(s, t).starts - {id}))
    case StartBuild(t, id) =>
      var pc := PcOf(s, t);
      var row := pc.starts[id];
      SetPc(s, t, MBuilt(pc.starts - {id}, id, row, if row.kind == SUB2API then s.sources[id].dsn else None))
    case Register(t) =>
      var pc := PcOf(s, t);
      SetPc(if pc.id in s.runtimes then s else Registering(s, t), t, MStart(pc.starts))
    case StartsDone(t) => Leave(s, t)
  }

  /** One fetched account is committed. */
  function ApplyStep(s: State, r: nat): State
    requires RpcOf(s, r).RChecked? && RpcOf(s, r).n > 0 && s.readers[r].id in s.sources
  {
    SetRpc(Record(s, s.readers[r].id, FromReader(s.readers[r].row, s.readers[r].dsn)), r,
           RPubWait(RpcOf(s, r).l, RpcOf(s, r).n - 1))
  }

  /** The rounds of a reader. */
  function ReaderStep(s: State, a: Action): State
    requires Enabled(s, a) && IsReaderStep(a)
  {
    var pc := RpcOf(s, a.r);
    match a
    case ReaderBegin(r) =>
      var id := s.readers[r].id;
      SetRpc(WithLock(s, id), r, RWait(LockFor(s, id)))
    case ReaderAcquire(r) => SetRpc(Hold(s, pc.l, ReaderAgent(r)), r, RHold(pc.l))
    case ReaderCheckContext(r) => SetRpc(s, r, RReady(pc.l))
    case ReaderFetch(r, n) => SetRpc(s, r, RData(pc.l, n))
    case ReaderStillDirect(r) => SetRpc(s, r, RChecked(pc.l, pc.n))
    case ReaderApply(r) => ApplyStep(s, r)
    case ReaderRelease(r) => SetRpc(Free(s, pc.l), r, RIdle)
    case ReaderExit(r) => SetRpc(s, r, RDone)
  }

  /** Where a thread is once it has the map-change lock. */
  function InMap(pc: Pc): Pc { if pc.SPubWait? then SPublish(pc.id, pc.l) else PubHold }

  /** Where a thread goes on once it gives the map-change lock back. */
  function AfterMap(pc: Pc): Pc { if pc.SPublish? then SDone(pc.id, pc.l) else Idle }

  /** Taking and leaving the map-change lock, under which the published snapshots are replaced. */
  function PublishStep(s: State, a: Action): State
    requires Enabled(s, a) && IsPublishStep(a)
  {
    match a
    case AskPublish(t) => SetPc(s, t, PubWait)
    case TakeMap(t) => SetPc(s.(publishing := Some(Thread(t))), t, InMap(PcOf(s, t)))
    case LeaveMap(t) => SetPc(s.(publishing := None), t, AfterMap(PcOf(s, t)))
    case ReaderTakeMap(r) =>
      SetRpc(s.(publishing := Some(ReaderAgent(r))), r, RPublish(RpcOf(s, r).l, RpcOf(s, r).n))
    case ReaderLeaveMap(r) => SetRpc(s.(publishing := None), r, RData(RpcOf(s, r).l, RpcOf(s, r).n))
  }

  function Step(s: State, a: Action): State
    requires Enabled(s, a)
  {
    if IsSyncStep(a) then SyncStep(s, a)
    else if IsStopStep(a) then StopStep(s, a)
    else if IsJobStep(a) then JobStep(s, a)
    else if IsStartStep(a) then StartStep(s, a)
    else if IsReaderStep(a) then ReaderStep(s, a)
    else PublishStep(s, a)
  }

  // ---------- The invariant ----------

  /** The source was deleted. */
  predicate Dead(s: State, id: int) { 0 < id < s.nextId && id !in s.sources }

  predicate Allocated(s: State, id: int) { 0 < id < s.nextId }

  predicate IsConfigJob(job: Job) { job.Update? || job.Delete? }

  predicate InMutex(pc: Pc) {
    pc.MList? || pc.MStop? || pc.MLockWait? || pc.MLockHeld? || pc.MUnlock? || pc.MDrop? || pc.MStart? || pc.MBuilt?
  }

  /** The lock a thread waits for or holds, with the source it stands for. */
  function LockRef(pc: Pc): Option<(int, LockId)> {
    if pc.SWait? || SyncHolding(pc) then Some((pc.id, pc.l))
    else if (pc.MLockWait? || pc.MLockHeld? || pc.MUnlock?) && IsConfigJob(pc.job) then Some((pc.job.id, pc.l))
    else None
  }

  predicate ThreadHolds(pc: Pc) { SyncHolding(pc) || pc.MLockHeld? || pc.MUnlock? }

  /** As long as a source is not deleted, its lock object is the registered one. */
  predicate RefOk(s: State, id: int, l: LockId) {
    l < s.nextLock && (!Dead(s, id) ==> id in s.locks && s.locks[id] == l)
  }

  predicate Registered(s: State, r: nat)
    requires r in s.readers
  {
    s.readers[r].id in s.runtimes && s.runtimes[s.readers[r].id] == r
  }

  predicate BeingStopped(s: State, r: nat) {
    s.mutex.Some? && PcOf(s, s.mutex.value).MStop? && r in PcOf(s, s.mutex.value).taken
  }

  ghost predicate RowsCurrent(s: State, rows: map<int, Row>) {
    forall id :: id in rows ==> id in s.sources && s.sources[id].row == rows[id] && Wanted(rows[id])
  }

  ghost predicate TakenOk(s: State, taken: set<nat>) {
    && (forall r :: r in taken ==> r in s.readers && s.readers[r].id !in s.runtimes)
    && (forall r1, r2 :: r1 in taken && r2 in taken && s.readers[r1].id == s.readers[r2].id ==> r1 == r2)
  }

  /** The row a synchronisation has read is the stored one and has a URL. */
  predicate ApiRow(s: State, id: int, row: Row) {
    id in s.sources && s.sources[id].row == row && TrimSpace(row.baseUrl) != ""
  }

  /** The readers a job may not leave running: its source's, all concerned by a forced
      reconciliation, all at shutdown. */
  predicate MustStop(job: Job, id: int) {
    match job
    case Update(i, _) => id == i
    case Delete(i) => id == i
    case Reconcile(only, force) => force && Concerns(only, id)
    case Shutdown => true
  }

  ghost predicate OneAtMost(taken: set<nat>) { forall r1, r2 :: r1 in taken && r2 in taken ==> r1 == r2 }

  /** What a thread has read is still so, and what it is about to do is safe. */
  ghost predicate PcOk(s: State, pc: Pc) {
    match pc
    case SRow(id, _, row) => ApiRow(s, id, row)
    case SKey(id, _, row, key) => ApiRow(s, id, row) && s.sources[id].apiKey == Some(key)
    case SData(id, _, row, key) => ApiRow(s, id, row) && s.sources[id].apiKey == Some(key)
    case MWant(job) => IsConfigJob(job) ==> Allocated(s, job.id)
    case MStop(job, todo, taken, desired) =>
      (IsConfigJob(job) ==> Allocated(s, job.id)) && (forall id :: id in s.runtimes && MustStop(job, id) ==> id in todo)
      && TakenOk(s, taken) && (!job.Shutdown? ==> OneAtMost(taken)) && RowsCurrent(s, desired)
    case MLockWait(job, _) => IsConfigJob(job) && Allocated(s, job.id) && job.id !in s.runtimes
    case MLockHeld(job, _) => IsConfigJob(job) && Allocated(s, job.id) && job.id !in s.runtimes
    case MUnlock(job, _, ok) => IsConfigJob(job) && Allocated(s, job.id) && (job.Delete? && ok ==> Dead(s, job.id))
    case MDrop(id) => Dead(s, id)
    case MStart(starts) => RowsCurrent(s, starts)
    case MBuilt(starts, id, row, dsn) =>
      RowsCurrent(s, starts) && id in s.sources && s.sources[id].row == row && Wanted(row)
          && (row.kind == SUB2API ==> s.sources[id].dsn == dsn)
    case _ => true
  }

  /** A thread refers to the registered lock, holds what it should, and is in the mutex if it should be. */
  ghost predicate ThreadOk(s: State, t: nat, pc: Pc) {
    && (LockRef(pc).Some? ==> RefOk(s, LockRef(pc).value.0, LockRef(pc).value.1))
    && (ThreadHolds(pc) ==> pc.l in s.held && s.held[pc.l] == Thread(t))
    && (InMutex(pc) <==> s.mutex == Some(t))
    && (Publishing(pc) <==> s.publishing == Some(Thread(t)))
    && PcOk(s, pc)
  }

  /** A reader that is alive is registered or being stopped, its source is there and asks for it,
      and it was built from the configuration in force. */
  ghost predicate ReaderOk(s: State, r: nat) {
    && (RpcOf(s, r).RPublish? <==> s.publishing == Some(ReaderAgent(r)))
    && (r in s.readers ==> BuiltOk(s, r))
  }

  ghost predicate BuiltOk(s: State, r: nat)
    requires r in s.readers
  {
    var reader := s.readers[r];
    && r < s.nextReader && Allocated(s, reader.id)
    && (reader.pc.RWait? || ReaderHolding(reader.pc) ==> RefOk(s, reader.id, reader.pc.l))
    && (ReaderHolding(reader.pc) ==> reader.pc.l in s.held && s.held[reader.pc.l] == ReaderAgent(r))
    && (Alive(s, r) ==> Registered(s, r) || BeingStopped(s, r))
    && (Alive(s, r) ==> reader.id in s.sources && Wanted(s.sources[reader.id].row)
                        && FetchedUnder(FromReader(reader.row, reader.dsn), s.sources[reader.id]))
  }

  predicate IdOk(s: State, id: int) {
    && (id in s.sources ==> Allocated(s, id))
    && (id in s.locks ==> s.locks[id] < s.nextLock)
    && (id in s.runtimes ==> s.runtimes[id] in s.readers && s.readers[s.runtimes[id]].id == id)
  }

  ghost predicate LedgerOk(s: State) {
    forall i :: 0 <= i < |s.ledger| ==>
      FetchedUnder(s.ledger[i].evidence, s.ledger[i].inForce) && Entitled(s.ledger[i].evidence, s.ledger[i].inForce)
  }

  ghost predicate Sound(s: State) {
    && 0 < s.nextId
    && (forall t: nat :: ThreadOk(s, t, PcOf(s, t)))
    && (forall r: nat :: ReaderOk(s, r))
    && (forall id: int :: IdOk(s, id))
    && LedgerOk(s)
  }
}
