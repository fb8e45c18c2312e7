/** Runs of the joint system that get somewhere: a synchronisation that commits a row, and a
    reader that comes to life and commits a delta. */
module JointRuns {
  import opened Text
  import opened Tables
  import opened Provenance
  import L = SourceLifecycle
  import StoreRuns
  import S = Secrets

  // ---------- A synchronisation ----------

  lemma {:induction false} ReachesSnoc(w: World, events: seq<Event>, w1: World, e: Event)
    requires Reaches(w, events, w1) && Enabled(w1, e)
    ensures Reaches(w, events + [e], Next(w1, e))
    decreases |events|
  {
    if |events| == 0 {
      assert (events + [e])[1..] == [];
    } else {
      AppendTail(events, [e]);
      ReachesSnoc(Next(w, events[0]), events[1..], w1, e);
    }
  }

  lemma {:induction false} Then(events: seq<Event>, w: World, a: L.Action) returns (events': seq<Event>, w': World)
    requires Reaches(NEW, events, w) && L.Enabled(w.life, a) && !IsCommit(a)
    ensures Reaches(NEW, events', w') && w' == w.(life := L.Step(w.life, a))
  {
    ReachesSnoc(NEW, events, w, Life(a));
    events', w' := events + [Life(a)], Next(w, Life(a));
  }

  lemma {:induction false} SyncBegins(events: seq<Event>, w: World) returns (events': seq<Event>, w': World)
    requires Reaches(NEW, events, w) && w.life.threads == map[] && w.life.held == map[]
    ensures Reaches(NEW, events', w') && w'.db == w.db && w'.life.sources == w.life.sources
    ensures L.PcOf(w'.life, 0).SWait? && L.PcOf(w'.life, 0).id == 1 && w'.life.held == map[]
  {
    events', w' := Then(events, w, L.SyncBegin(0, 1));
  }

  lemma {:induction false} SyncTakesLock(events: seq<Event>, w: World) returns (events': seq<Event>, w': World)
    requires Reaches(NEW, events, w)
    requires L.PcOf(w.life, 0).SWait? && L.PcOf(w.life, 0).id == 1 && w.life.held == map[]
    ensures Reaches(NEW, events', w') && w'.db == w.db && w'.life.sources == w.life.sources
    ensures L.PcOf(w'.life, 0).SHold? && L.PcOf(w'.life, 0).id == 1
  {
    events', w' := Then(events, w, L.SyncAcquire(0));
  }

  /** Thread 0 synchronises source 1, from having its lock to having fetched. */
  lemma {:induction false} SyncToFetch(events: seq<Event>, w: World) returns (events': seq<Event>, w': World)
    requires Reaches(NEW, events, w) && L.PcOf(w.life, 0).SHold? && L.PcOf(w.life, 0).id == 1 && 1 in w.life.sources
    requires TrimSpace(w.life.sources[1].row.baseUrl) != "" && w.life.sources[1].apiKey.Some?
    ensures Reaches(NEW, events', w') && w'.db == w.db && w'.life.sources == w.life.sources
    ensures L.PcOf(w'.life, 0).SData? && L.PcOf(w'.life, 0).id == 1
  {
    events', w' := Then(events, w, L.SyncReadRow(0));
    assert L.PcOf(w'.life, 0).SRow? && L.PcOf(w'.life, 0).id == 1 && w'.life.sources == w.life.sources;
    events', w' := Then(events', w', L.SyncReadKey(0));
    assert L.PcOf(w'.life, 0).SKey? && L.PcOf(w'.life, 0).id == 1;
    events', w' := Then(events', w', L.SyncFetch(0));
  }

  lemma {:induction false} FirstSource(row: SourceRow, apiKey: string) returns (events: seq<Event>, w: World)
    requires apiKey != ""
    ensures Reaches(NEW, events, w) && w.life.threads == map[] && w.life.held == map[]
    ensures 1 in w.db.t.sources && 1 in w.life.sources
    ensures w.life.sources[1].row.baseUrl == row.baseUrl && w.life.sources[1].apiKey == Some(apiKey)
  {
    var created := Created(row, apiKey, "");
    assert TrimSpace("") == "";
    assert Reaches(NEW, [], NEW);
    ReachesSnoc(NEW, [], NEW, created);
    events, w := [] + [created], Next(NEW, created);
  }

  lemma {:induction false} SyncCommits(events: seq<Event>, w: World, up: Upsert)
    returns (events': seq<Event>, w': World)
    requires Reaches(NEW, events, w) && L.PcOf(w.life, 0).SData? && L.PcOf(w.life, 0).id == 1
    requires 1 in w.life.sources && 1 in w.db.t.sources && StoreRuns.HasCredential(up)
    ensures Reaches(NEW, events', w') && KeyFor(SrcName(1), "", up) in w'.db.t.acct
  {
    var synced := Synced(0, "", [up], 1, 0);
    ReachesSnoc(NEW, events, w, synced);
    FirstRow(w, up);
    events', w' := events + [synced], Next(w, synced);
  }

  lemma {:induction false} FirstRow(w: World, up: Upsert)
    requires 1 in w.db.t.sources
    ensures KeyFor(SrcName(1), "", up) in GuardedSnapshot(w.db.t, 1, "", [up], 1, 0).acct
  {
    assert [up][..0] == [];
  }

  /** A run in which a synchronisation commits a row, so the results above are about something. */
  lemma {:induction false} SomeRunWritesRows(row: SourceRow, apiKey: string, up: Upsert)
    requires TrimSpace(row.baseUrl) != "" && apiKey != "" && StoreRuns.HasCredential(up)
    ensures exists events, w, k :: Reaches(NEW, events, w) && k in w.db.t.acct && k.source == SrcName(1)
  {
    var events, w := FirstSource(row, apiKey);
    events, w := SyncBegins(events, w);
    events, w := SyncTakesLock(events, w);
    events, w := SyncToFetch(events, w);
    events, w := SyncCommits(events, w, up);
    assert KeyFor(SrcName(1), "", up) in w.db.t.acct;
  }

  // ---------- A reader ----------

  /** Source 1 asks for a reader of its database, and nothing is under way but what `pc` says. */
  ghost predicate Asking(w: World, pc: L.Pc) {
    && 1 in w.db.t.sources && 1 in w.life.sources && L.Wanted(w.life.sources[1].row)
    && w.life.sources[1].row.kind == "sub2api" && w.life.sources[1].dsn.Some?
    && L.PcOf(w.life, 0) == pc && (pc == L.Idle ==> w.life.mutex == None)
    && w.life.runtimes == map[] && w.life.readers == map[] && w.life.nextReader == 0 && w.life.held == map[]
  }

  lemma {:induction false} FirstDirectSource(row: SourceRow, dsn: string) returns (events: seq<Event>, w: World)
    requires row.kind == "sub2api" && row.enabled && TrimSpace(dsn) != ""
    ensures Reaches(NEW, events, w) && Asking(w, L.Idle)
  {
    var created := Created(row, "", dsn);
    S.DsnNameTrimmed(1);
    S.NamesDiffer(1, 1);
    assert Reaches(NEW, [], NEW);
    ReachesSnoc(NEW, [], NEW, created);
    events, w := [] + [created], Next(NEW, created);
  }

  lemma {:induction false} ManagerRuns(events: seq<Event>, w: World) returns (events': seq<Event>, w': World)
    requires Reaches(NEW, events, w) && Asking(w, L.Idle)
    ensures Reaches(NEW, events', w') && Asking(w', L.Idle) && w'.life.running
  {
    events', w' := Then(events, w, L.RunBegins);
  }

  const ALL := L.Reconcile(None, false)

  lemma {:induction false} Reconciles(events: seq<Event>, w: World) returns (events': seq<Event>, w': World)
    requires Reaches(NEW, events, w) && Asking(w, L.Idle) && w.life.running
    ensures Reaches(NEW, events', w') && Asking(w', L.MList(None, false)) && w'.life.running
  {
    events', w' := Then(events, w, L.Ask(0, ALL));
    assert Asking(w', L.MWant(ALL)) && w'.life.running && w'.life.mutex == None;
    events', w' := Then(events', w', L.Enter(0));
  }

  lemma {:induction false} Lists(events: seq<Event>, w: World)
    returns (events': seq<Event>, w': World, starts: map<int, L.Row>)
    requires Reaches(NEW, events, w) && Asking(w, L.MList(None, false)) && w.life.running
    ensures Reaches(NEW, events', w') && Asking(w', L.MStop(ALL, {}, {}, starts)) && w'.life.running
    ensures 1 in starts && starts[1] == w'.life.sources[1].row
  {
    starts := L.ToStart(w.life, None);
    assert L.ToStop(w.life, None, false) == {};
    events', w' := Then(events, w, L.List(0));
  }

  lemma {:induction false} StopsNone(events: seq<Event>, w: World, starts: map<int, L.Row>)
    returns (events': seq<Event>, w': World)
    requires Reaches(NEW, events, w) && Asking(w, L.MStop(ALL, {}, {}, starts)) && w.life.running
    ensures Reaches(NEW, events', w') && Asking(w', L.MStart(starts)) && w'.life.running
    ensures w'.life.sources == w.life.sources
  {
    events', w' := Then(events, w, L.StopsDone(0));
  }

  lemma {:induction false} Builds(events: seq<Event>, w: World, starts: map<int, L.Row>)
    returns (events': seq<Event>, w': World, row: L.Row, dsn: Option<string>)
    requires Reaches(NEW, events, w) && Asking(w, L.MStart(starts)) && w.life.running
    requires 1 in starts && starts[1] == w.life.sources[1].row
    ensures Reaches(NEW, events', w') && Asking(w', L.MBuilt(starts - {1}, 1, row, dsn))
    ensures row == w'.life.sources[1].row
  {
    row, dsn := starts[1], w.life.sources[1].dsn;
    events', w' := Then(events, w, L.StartBuild(0, 1));
  }

  /** Source 1 has reader 0, at the given position. */
  ghost predicate Reading(w: World, pc: L.ReaderPc) {
    && 1 in w.db.t.sources && 1 in w.life.sources && 0 in w.life.readers
    && w.life.readers[0].id == 1 && !w.life.readers[0].cancelled && w.life.readers[0].pc == pc
    && L.StillDirect(w.life, 1, w.life.readers[0].row)
  }

  lemma {:induction false} Registers(events: seq<Event>, w: World, starts: map<int, L.Row>, row: L.Row,
                                     dsn: Option<string>)
    returns (events': seq<Event>, w': World)
    requires Reaches(NEW, events, w) && Asking(w, L.MBuilt(starts, 1, row, dsn)) && row == w.life.sources[1].row
    ensures Reaches(NEW, events', w') && Reading(w', L.RIdle) && w'.life.held == map[]
  {
    events', w' := Then(events, w, L.Register(0));
  }

  lemma {:induction false} Begins(events: seq<Event>, w: World)
    returns (events': seq<Event>, w': World, l: L.LockId)
    requires Reaches(NEW, events, w) && Reading(w, L.RIdle) && w.life.held == map[]
    ensures Reaches(NEW, events', w') && Reading(w', L.RWait(l)) && w'.life.held == map[]
  {
    l := L.LockFor(w.life, 1);
    events', w' := Then(events, w, L.ReaderBegin(0));
  }

  lemma {:induction false} Locks(events: seq<Event>, w: World, l: L.LockId)
    returns (events': seq<Event>, w': World)
    requires Reaches(NEW, events, w) && Reading(w, L.RWait(l)) && w.life.held == map[]
    ensures Reaches(NEW, events', w') && Reading(w', L.RHold(l))
  {
    events', w' := Then(events, w, L.ReaderAcquire(0));
  }

  lemma {:induction false} IsNotCancelled(events: seq<Event>, w: World, l: L.LockId)
    returns (events': seq<Event>, w': World)
    requires Reaches(NEW, events, w) && Reading(w, L.RHold(l))
    ensures Reaches(NEW, events', w') && Reading(w', L.RReady(l))
  {
    events', w' := Then(events, w, L.ReaderCheckContext(0));
  }

  lemma {:induction false} Fetches(events: seq<Event>, w: World, l: L.LockId)
    returns (events': seq<Event>, w': World)
    requires Reaches(NEW, events, w) && Reading(w, L.RReady(l))
    ensures Reaches(NEW, events', w') && Reading(w', L.RData(l, 1))
  {
    events', w' := Then(events, w, L.ReaderFetch(0, 1));
  }

  lemma {:induction false} IsStillDirect(events: seq<Event>, w: World, l: L.LockId)
    returns (events': seq<Event>, w': World)
    requires Reaches(NEW, events, w) && Reading(w, L.RData(l, 1))
    ensures Reaches(NEW, events', w') && Reading(w', L.RChecked(l, 1))
  {
    events', w' := Then(events, w, L.ReaderStillDirect(0));
  }

  lemma {:induction false} DeltaRow(t: Tables, up: Upsert)
    requires 1 in t.sources && StoreRuns.HasCredential(up)
    ensures KeyFor(SrcName(1), "", up) in Delta(t, 1, "", up, 0).acct
  {
  }

  lemma {:induction false} AppliesInLife(s: L.State, r: nat)
    requires L.Enabled(s, L.ReaderApply(r))
    ensures var s' := L.Step(s, L.ReaderApply(r));
      L.Alive(s', r) && |s'.ledger| > 0 && s'.ledger[|s'.ledger| - 1].evidence.FromReader?
  {
    assert L.Step(s, L.ReaderApply(r)) == L.ApplyStep(s, r);
  }

  lemma {:induction false} AppliedWorld(w: World, l: L.LockId, up: Upsert)
    requires Reading(w, L.RChecked(l, 1)) && StoreRuns.HasCredential(up)
    ensures var applied := Applied(0, "", up, 0);
      Enabled(w, applied) && HasDelta(Next(w, applied), KeyFor(SrcName(1), "", up))
  {
    AppliesInLife(w.life, 0);
    DeltaRow(w.db.t, up);
  }

  lemma {:induction false} Applies(events: seq<Event>, w: World, l: L.LockId, up: Upsert)
    returns (events': seq<Event>, w': World)
    requires Reaches(NEW, events, w) && Reading(w, L.RChecked(l, 1)) && StoreRuns.HasCredential(up)
    ensures DeltaCommitted(events', w', KeyFor(SrcName(1), "", up))
  {
    var applied := Applied(0, "", up, 0);
    AppliedWorld(w, l, up);
    ReachesSnoc(NEW, events, w, applied);
    events', w' := events + [applied], Next(w, applied);
  }

  ghost predicate DeltaCommitted(events: seq<Event>, w: World, k: AcctKey) {
    Reaches(NEW, events, w) && HasDelta(w, k)
  }

  /** A reader is alive and has committed the last entry, and the row is there. */
  predicate HasDelta(w: World, k: AcctKey) {
    && L.Alive(w.life, 0)
    && |w.life.ledger| > 0 && w.life.ledger[|w.life.ledger| - 1].evidence.FromReader?
    && k in w.db.t.acct && k.source == SrcName(1)
  }

  lemma {:induction false} ReaderStarts(row: SourceRow, dsn: string) returns (events: seq<Event>, w: World)
    requires row.kind == "sub2api" && row.enabled && TrimSpace(dsn) != ""
    ensures Reaches(NEW, events, w) && Reading(w, L.RIdle) && w.life.held == map[]
  {
    events, w := FirstDirectSource(row, dsn);
    events, w := ManagerRuns(events, w);
    events, w := Reconciles(events, w);
    var starts;
    events, w, starts := Lists(events, w);
    events, w := StopsNone(events, w, starts);
    var built, secret;
    events, w, built, secret := Builds(events, w, starts);
    events, w := Registers(events, w, starts - {1}, built, secret);
  }

  lemma {:induction false} ReaderCommits(events: seq<Event>, w: World, up: Upsert)
    returns (events': seq<Event>, w': World)
    requires Reaches(NEW, events, w) && Reading(w, L.RIdle) && w.life.held == map[] && StoreRuns.HasCredential(up)
    ensures DeltaCommitted(events', w', KeyFor(SrcName(1), "", up))
  {
    var l;
    events', w', l := Begins(events, w);
    events', w' := Locks(events', w', l);
    events', w' := IsNotCancelled(events', w', l);
    events', w' := Fetches(events', w', l);
    events', w' := IsStillDirect(events', w', l);
    events', w' := Applies(events', w', l, up);
  }

  /** A run in which a reconciliation starts the reader of an enabled source with a DSN, and the
      reader commits a delta. */
  lemma {:induction false} SomeRunAppliesDelta(row: SourceRow, dsn: string, up: Upsert)
    requires row.kind == "sub2api" && row.enabled && TrimSpace(dsn) != "" && StoreRuns.HasCredential(up)
    ensures exists events, w, k :: DeltaCommitted(events, w, k)
  {
    var events, w := ReaderStarts(row, dsn);
    events, w := ReaderCommits(events, w, up);
  }
}
