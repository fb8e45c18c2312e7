/** Where the rows of the account map come from: the life cycle of the sources run
    together with the tables and the secrets it works on.  Every commit of the life
    cycle is the store transaction it stands for, and store operations of other
    handlers come in between. */
module Provenance {
  import opened Text
  import opened Tables
  import L = SourceLifecycle
  import SourceSteps
  import SourceRuns
  import StoreRuns
  import ClearFingerprint
  import PushMerge
  import S = Secrets

  /** What a committed snapshot or delta wrote; an empty snapshot may not have been believed. */
  datatype Written = Whole(keep: seq<Upsert>, believed: bool) | OneAccount(up: Upsert)

  /** written: one for each entry of the ledger. */
  datatype World = World(life: L.State, db: S.Db, written: seq<Written>)

  const NEW := World(L.START, S.NO_DB, [])

  /** The configuration stored for a source. */
  function ConfigOf(db: S.Db, id: int): L.Config
    requires id in db.t.sources
  {
    var row := db.t.sources[id];
    L.Config(L.Row(row.kind, row.baseUrl, row.authDir, row.dbSecret, row.enabled), S.ApiKeyOf(db, id), S.DsnOf(db, id))
  }

  // ---------- Events ----------

  datatype Event =
    | Life(a: L.Action)
    | Created(row: SourceRow, apiKey: string, dsn: string)
    | Synced(t: nat, sourceType: string, keep: seq<Upsert>, threshold: int, now: int)
    | Applied(r: nat, sourceType: string, up: Upsert, now: int)
    | Changed(t: nat, row: SourceRow, apiKey: string, req: S.DsnRequest)
    | Removed(t: nat)
    | Other(op: StoreRuns.Op)

  predicate IsCommit(a: L.Action) { a.CreateSource? || a.SyncCommit? || a.ReaderApply? || a.JobCommit? }

  /** An update or a deletion about to commit. */
  predicate Committing(pc: L.Pc) { pc.MLockHeld? && L.IsConfigJob(pc.job) }

  ghost predicate Enabled(w: World, e: Event) {
    match e
    case Life(a) => L.Enabled(w.life, a) && !IsCommit(a)
    case Created(row, apiKey, dsn) => S.CreateError(w.db, row, apiKey, dsn) == NoError
    case Synced(t, _, keep, _, _) =>
      L.Enabled(w.life, L.SyncCommit(t, false)) && forall up :: up in keep ==> StoreRuns.HasCredential(up)
    case Applied(r, _, _, _) => L.Enabled(w.life, L.ReaderApply(r))
    case Changed(t, row, apiKey, req) =>
      var pc := L.PcOf(w.life, t);
      && Committing(pc) && pc.job.Update? && S.UpdateError(w.db, pc.job.id, row, req) == NoError
      && row.dbSecret in {"", S.DsnName(pc.job.id)}
      && (pc.job.id in w.db.t.sources ==>
            pc.job.config == ConfigOf(S.UpdateConfig(w.db, pc.job.id, row, apiKey, req), pc.job.id))
    case Removed(t) => Committing(L.PcOf(w.life, t)) && L.PcOf(w.life, t).job.Delete?
    case Other(op) => !StoreRuns.IsSourceOp(op) && StoreRuns.WellFormed(w.db.t, op)
  }

  /** The reload follows unless the source was gone or the empty snapshot was put off. */
  function Believed(outcome: SnapshotOutcome): bool { outcome.Replaced? || outcome.Cleared? }

  function OutcomeOf(w: World, e: Event): SnapshotOutcome
    requires e.Synced? && L.PcOf(w.life, e.t).SData?
  {
    GuardOutcome(w.db.t, L.PcOf(w.life, e.t).id, e.keep, e.threshold)
  }

  /** The step the life cycle takes; configurations are those of the transaction. */
  function ActionOf(w: World, e: Event): (a: L.Action)
    requires Enabled(w, e) && !e.Other?
    ensures L.Enabled(w.life, a)
  {
    match e
    case Life(a) => a
    case Created(row, apiKey, dsn) =>
      L.CreateSource(ConfigOf(S.CreateConfig(w.db, row, apiKey, dsn), w.db.t.nextSource))
    case Synced(t, _, _, _, _) => L.SyncCommit(t, !OutcomeOf(w, e).SourceGone? && !OutcomeOf(w, e).Deferred?)
    case Applied(r, _, _, _) => L.ReaderApply(r)
    case Changed(t, _, _, _) => L.JobCommit(t)
    case Removed(t) => L.JobCommit(t)
  }

  /** The transaction. */
  function DbAfter(w: World, e: Event): S.Db
    requires Enabled(w, e)
  {
    match e
    case Life(_) => w.db
    case Created(row, apiKey, dsn) => S.CreateConfig(w.db, row, apiKey, dsn)
    case Synced(t, sourceType, keep, threshold, now) =>
      w.db.(t := GuardedSnapshot(w.db.t, L.PcOf(w.life, t).id, sourceType, keep, threshold, now))
    case Applied(r, sourceType, up, now) => w.db.(t := Delta(w.db.t, w.life.readers[r].id, sourceType, up, now))
    case Changed(t, row, apiKey, req) => S.UpdateConfig(w.db, L.PcOf(w.life, t).job.id, row, apiKey, req)
    case Removed(t) => S.DeleteConfig(w.db, L.PcOf(w.life, t).job.id)
    case Other(op) => w.db.(t := StoreRuns.Apply(w.db.t, op))
  }

  function WrittenAfter(w: World, e: Event): seq<Written>
    requires Enabled(w, e)
  {
    if e.Synced? then w.written + [Whole(e.keep, Believed(OutcomeOf(w, e)))]
    else if e.Applied? then w.written + [OneAccount(e.up)]
    else w.written
  }

  function Next(w: World, e: Event): World
    requires Enabled(w, e)
  {
    World(if e.Other? then w.life else L.Step(w.life, ActionOf(w, e)), DbAfter(w, e), WrittenAfter(w, e))
  }

  ghost predicate Reaches(w: World, events: seq<Event>, w': World)
    decreases |events|
  {
    if |events| == 0 then w == w' else Enabled(w, events[0]) && Reaches(Next(w, events[0]), events[1..], w')
  }

  // ---------- The tables follow the life cycle ----------

  /** The life cycle sees the stored configuration of the source. */
  predicate AlignedAt(life: L.State, db: S.Db, id: int) {
    && (id in life.sources <==> id in db.t.sources)
    && (id in db.t.sources ==>
          life.sources[id] == ConfigOf(db, id) && db.t.sources[id].dbSecret in {"", S.DsnName(id)})
  }

  ghost predicate Aligned(life: L.State, db: S.Db) {
    life.nextId == db.t.nextSource && forall id :: AlignedAt(life, db, id)
  }

  ghost predicate SameSources(t: Tables, t': Tables) {
    && t'.nextSource == t.nextSource
    && forall id :: (id in t'.sources <==> id in t.sources)
                    && (id in t.sources ==> t'.sources[id] == t.sources[id].(emptyStreak := t'.sources[id].emptyStreak))
  }

  lemma {:induction false} StoreOpAligned(life: L.State, life': L.State, db: S.Db, t': Tables)
    requires Aligned(life, db) && SameSources(db.t, t')
    requires life'.sources == life.sources && life'.nextId == life.nextId
    ensures Aligned(life', db.(t := t'))
  {
    forall id ensures AlignedAt(life', db.(t := t'), id) {
      assert AlignedAt(life, db, id);
    }
  }

  /** The configuration of a source that a transaction on another one leaves alone. */
  predicate SameConfig(db: S.Db, db': S.Db, id: int) {
    && (id in db'.t.sources <==> id in db.t.sources)
    && (id in db.t.sources ==> db'.t.sources[id] == db.t.sources[id] && ConfigOf(db', id) == ConfigOf(db, id))
  }

  lemma {:induction false} CreateElsewhere(db: S.Db, row: SourceRow, apiKey: string, dsn: string, id: int)
    requires id != db.t.nextSource && (id in db.t.sources ==> db.t.sources[id].dbSecret in {"", S.DsnName(id)})
    ensures SameConfig(db, S.CreateConfig(db, row, apiKey, dsn), id)
  {
    S.NamesDiffer(id, db.t.nextSource);
    S.NamesDiffer(db.t.nextSource, id);
    S.NewSecretsElsewhere(db.secrets, db.t.nextSource, row.kind, apiKey, dsn, S.ApiKeyName(id));
    S.NewSecretsElsewhere(db.secrets, db.t.nextSource, row.kind, apiKey, dsn, S.DsnName(id));
  }

  lemma {:induction false} UpdateElsewhere(db: S.Db, changed: int, row: SourceRow, apiKey: string, req: S.DsnRequest,
                                           id: int)
    requires id != changed && S.Dropped(changed, row, req) <= {S.DsnName(changed), ""}
    requires id in db.t.sources ==> db.t.sources[id].dbSecret in {"", S.DsnName(id)}
    ensures SameConfig(db, S.UpdateConfig(db, changed, row, apiKey, req), id)
  {
    S.NamesDiffer(id, changed);
    S.NamesDiffer(changed, id);
    S.UpdatedSecretsElsewhere(db.secrets, changed, row, apiKey, req, S.ApiKeyName(id));
    S.UpdatedSecretsElsewhere(db.secrets, changed, row, apiKey, req, S.DsnName(id));
  }

  lemma {:induction false} DeleteElsewhere(db: S.Db, gone: int, id: int)
    requires id != gone && (gone in db.t.sources ==> db.t.sources[gone].dbSecret in {"", S.DsnName(gone)})
    requires id in db.t.sources ==> db.t.sources[id].dbSecret in {"", S.DsnName(id)}
    ensures SameConfig(db, S.DeleteConfig(db, gone), id)
  {
    S.NamesDiffer(id, gone);
    S.NamesDiffer(gone, id);
  }

  /** All but one source stay as they were, in the life cycle and in the tables. */
  lemma {:induction false} OneChanged(life: L.State, life': L.State, db: S.Db, db': S.Db, changed: int)
    requires Aligned(life, db) && AlignedAt(life', db', changed) && life'.nextId == db'.t.nextSource
    requires life'.sources - {changed} == life.sources - {changed}
    requires forall id :: id != changed ==> SameConfig(db, db', id)
    ensures Aligned(life', db')
  {
    forall id ensures AlignedAt(life', db', id) {
      assert AlignedAt(life, db, id);
      if id != changed {
        assert SameConfig(db, db', id);
        assert id in life'.sources <==> id in life'.sources - {changed};
        assert id in life.sources <==> id in life.sources - {changed};
      }
    }
  }

  lemma {:induction false} CreatedAligned(w: World, e: Event)
    requires e.Created? && Enabled(w, e) && Aligned(w.life, w.db) && Inv(w.db.t)
    ensures Aligned(Next(w, e).life, Next(w, e).db)
  {
    var db', next := Next(w, e).db, w.db.t.nextSource;
    forall id | id != next ensures SameConfig(w.db, db', id) {
      assert AlignedAt(w.life, w.db, id);
      CreateElsewhere(w.db, e.row, e.apiKey, e.dsn, id);
    }
    OneChanged(w.life, Next(w, e).life, w.db, db', next);
  }

  lemma {:induction false} StepIsJobStep(s: L.State, a: L.Action)
    requires L.Enabled(s, a) && L.IsJobStep(a)
    ensures L.Step(s, a) == L.JobStep(s, a)
  {
  }

  lemma {:induction false} CommitsConfig(s: L.State, t: nat)
    requires Committing(L.PcOf(s, t))
    ensures var s', job := L.Step(s, L.JobCommit(t)), L.PcOf(s, t).job;
      && s'.nextId == s.nextId && s'.ledger == s.ledger
      && s'.sources == (if job.Delete? then s.sources - {job.id}
                        else if job.id in s.sources then s.sources[job.id := job.config] else s.sources)
  {
    StepIsJobStep(s, L.JobCommit(t));
    assert L.JobStep(s, L.JobCommit(t)).sources == L.CommitConfig(s, L.PcOf(s, t).job).sources;
  }

  lemma {:induction false} ChangedAligned(w: World, e: Event)
    requires e.Changed? && Enabled(w, e) && Aligned(w.life, w.db)
    ensures Aligned(Next(w, e).life, Next(w, e).db)
  {
    var w', changed := Next(w, e), L.PcOf(w.life, e.t).job.id;
    S.FreshDrops(changed, e.row, e.req);
    forall id | id != changed ensures SameConfig(w.db, w'.db, id) {
      assert AlignedAt(w.life, w.db, id);
      UpdateElsewhere(w.db, changed, e.row, e.apiKey, e.req, id);
    }
    CommitsConfig(w.life, e.t);
    assert AlignedAt(w.life, w.db, changed);
    OneChanged(w.life, w'.life, w.db, w'.db, changed);
  }

  lemma {:induction false} RemovedAligned(w: World, e: Event)
    requires e.Removed? && Enabled(w, e) && Aligned(w.life, w.db)
    ensures Aligned(Next(w, e).life, Next(w, e).db)
  {
    var w', gone := Next(w, e), L.PcOf(w.life, e.t).job.id;
    assert AlignedAt(w.life, w.db, gone);
    forall id | id != gone ensures SameConfig(w.db, w'.db, id) {
      assert AlignedAt(w.life, w.db, id);
      DeleteElsewhere(w.db, gone, id);
    }
    CommitsConfig(w.life, e.t);
    OneChanged(w.life, w'.life, w.db, w'.db, gone);
  }

  // ---------- Steps that commit nothing ----------

  lemma {:induction false} SyncKeepsSources(s: L.State, a: L.Action)
    requires L.Enabled(s, a) && L.IsSyncStep(a) && !IsCommit(a)
    ensures SourceRuns.SameSources(s, L.SyncStep(s, a))
  {
  }

  lemma {:induction false} StartKeepsSources(s: L.State, a: L.Action)
    requires L.Enabled(s, a) && L.IsStartStep(a)
    ensures SourceRuns.SameSources(s, L.StartStep(s, a))
  {
  }

  lemma {:induction false} ReaderKeepsSources(s: L.State, a: L.Action)
    requires L.Enabled(s, a) && L.IsReaderStep(a) && !IsCommit(a)
    ensures SourceRuns.SameSources(s, L.ReaderStep(s, a))
  {
  }

  lemma {:induction false} LifeKeepsSources(s: L.State, a: L.Action)
    requires L.Enabled(s, a) && !IsCommit(a)
    ensures SourceRuns.SameSources(s, L.Step(s, a))
  {
    if L.IsSyncStep(a) {
      SyncKeepsSources(s, a);
    } else if L.IsStopStep(a) {
      SourceRuns.StopStepKeepsSources(s, a);
    } else if L.IsJobStep(a) {
      SourceRuns.JobStepKeepsSources(s, a);
    } else if L.IsStartStep(a) {
      StartKeepsSources(s, a);
    } else if L.IsReaderStep(a) {
      ReaderKeepsSources(s, a);
    } else {
      SourceRuns.PublishStepKeepsSources(s, a);
    }
  }

  // ---------- Which commit a row comes from ----------

  predicate OfUpsert(up: Upsert, k: AcctKey) { up.platform == k.platform && up.account == k.account }

  /** Every credential of the row was supplied for its account. */
  ghost predicate Carried(ups: seq<Upsert>, k: AcctKey, atFp: string) {
    && (k.rtFp != "" ==> exists up :: up in ups && OfUpsert(up, k) && up.rtFp == k.rtFp)
    && (atFp != "" ==> exists up :: up in ups && OfUpsert(up, k) && up.atFp == atFp)
  }

  function Ups(wr: Written): seq<Upsert> { if wr.Whole? then wr.keep else [wr.up] }

  /** The commit replaced the rows its source had for the account. */
  predicate Replaces(wr: Written, k: AcctKey) { if wr.Whole? then wr.believed else OfUpsert(wr.up, k) }

  /** The last commit of the source that replaced its rows for the account of k. */
  function Last(ledger: seq<L.Entry>, written: seq<Written>, id: int, k: AcctKey): (i: Option<nat>)
    requires |ledger| == |written|
    ensures i.Some? ==> i.value < |ledger| && ledger[i.value].id == id && Replaces(written[i.value], k)
    ensures forall j :: (if i.Some? then i.value < j else 0 <= j) && j < |ledger| ==>
      !(ledger[j].id == id && Replaces(written[j], k))
  {
    if |ledger| == 0 then None
    else
      var n := |ledger| - 1;
      if ledger[n].id == id && Replaces(written[n], k) then Some(n) else Last(ledger[..n], written[..n], id, k)
  }

  /** The row's credentials are those of the last commit that replaced its account's rows. */
  ghost predicate RowOk(ledger: seq<L.Entry>, written: seq<Written>, id: int, k: AcctKey, atFp: string)
    requires |ledger| == |written|
  {
    var i := Last(ledger, written, id, k);
    i.Some? && Carried(Ups(written[i.value]), k, atFp)
  }

  ghost predicate RowsOk(ledger: seq<L.Entry>, written: seq<Written>, acct: AcctMap, id: int)
    requires |ledger| == |written|
  {
    forall k :: k in acct && k.source == SrcName(id) ==> RowOk(ledger, written, id, k, acct[k].atFp)
  }

  lemma {:induction false} LastSnoc(ledger: seq<L.Entry>, e: L.Entry, written: seq<Written>, wr: Written, id: int,
                                    k: AcctKey)
    requires |ledger| == |written|
    ensures Last(ledger + [e], written + [wr], id, k)
         == if e.id == id && Replaces(wr, k) then Some(|ledger|) else Last(ledger, written, id, k)
  {
    assert (ledger + [e])[..|ledger|] == ledger && (written + [wr])[..|written|] == written;
  }

  /** Rows that the commit neither wrote nor replaced keep their origin. */
  lemma {:induction false} UntouchedRow(ledger: seq<L.Entry>, e: L.Entry, written: seq<Written>, wr: Written,
                                        id: int, k: AcctKey, atFp: string)
    requires |ledger| == |written| && RowOk(ledger, written, id, k, atFp)
    requires e.id != id || !Replaces(wr, k)
    ensures RowOk(ledger + [e], written + [wr], id, k, atFp)
  {
    LastSnoc(ledger, e, written, wr, id, k);
    var i := Last(ledger, written, id, k).value;
    assert (written + [wr])[i] == written[i];
  }

  /** Rows that the commit wrote come from it. */
  lemma {:induction false} WrittenRow(ledger: seq<L.Entry>, e: L.Entry, written: seq<Written>, wr: Written,
                                      k: AcctKey, atFp: string)
    requires |ledger| == |written| && Replaces(wr, k) && Carried(Ups(wr), k, atFp)
    ensures RowOk(ledger + [e], written + [wr], e.id, k, atFp)
  {
    LastSnoc(ledger, e, written, wr, e.id, k);
  }

  // ---------- Snapshots ----------

  lemma {:induction false} InsertedRows(acct: AcctMap, source: string, sourceType: string, keep: seq<Upsert>, now: int)
    ensures forall k :: k in InsertAll(acct, source, sourceType, keep, now) ==>
      (k in acct && InsertAll(acct, source, sourceType, keep, now)[k] == acct[k])
      || (k.source == source && Carried(keep, k, InsertAll(acct, source, sourceType, keep, now)[k].atFp))
  {
    if |keep| > 0 {
      var front, last := keep[..|keep| - 1], keep[|keep| - 1];
      InsertedRows(acct, source, sourceType, front, now);
      assert last in keep && OfUpsert(last, KeyFor(source, sourceType, last));
      assert forall up :: up in front ==> up in keep;
      assert forall k, atFp :: Carried(front, k, atFp) ==> Carried(keep, k, atFp);
    }
  }

  lemma {:induction false} SnapshotRows(t: Tables, id: int, sourceType: string, keep: seq<Upsert>, threshold: int,
                                        now: int)
    requires id in t.sources
    ensures var t', outcome := GuardedSnapshot(t, id, sourceType, keep, threshold, now),
                               GuardOutcome(t, id, keep, threshold);
      forall k :: k in t'.acct ==>
        if Believed(outcome) && k.source == SrcName(id) then Carried(keep, k, t'.acct[k].atFp)
        else k in t.acct && t'.acct[k] == t.acct[k]
  {
    InsertedRows(WithoutSource(t.acct, SrcName(id)), SrcName(id), sourceType, keep, now);
  }

  lemma {:induction false} SnapshotRowsOk(t: Tables, ledger: seq<L.Entry>, e: L.Entry, written: seq<Written>,
                                          sourceType: string, keep: seq<Upsert>, threshold: int, now: int, id: int)
    requires |ledger| == |written| && RowsOk(ledger, written, t.acct, id) && e.id in t.sources
    ensures var t', outcome := GuardedSnapshot(t, e.id, sourceType, keep, threshold, now),
                               GuardOutcome(t, e.id, keep, threshold);
      RowsOk(ledger + [e], written + [Whole(keep, Believed(outcome))], t'.acct, id)
  {
    var t' := GuardedSnapshot(t, e.id, sourceType, keep, threshold, now);
    var wr := Whole(keep, Believed(GuardOutcome(t, e.id, keep, threshold)));
    SnapshotRows(t, e.id, sourceType, keep, threshold, now);
    SrcNameInjective(id, e.id);
    forall k | k in t'.acct && k.source == SrcName(id)
        ensures RowOk(ledger + [e], written + [wr], id, k, t'.acct[k].atFp)
    {
      if wr.believed && id == e.id {
        WrittenRow(ledger, e, written, wr, k, t'.acct[k].atFp);
      } else {
        UntouchedRow(ledger, e, written, wr, id, k, t'.acct[k].atFp);
      }
    }
  }

  // ---------- Deltas ----------

  lemma {:induction false} DeltaRowsOk(t: Tables, ledger: seq<L.Entry>, e: L.Entry, written: seq<Written>,
                                       sourceType: string, up: Upsert, now: int, id: int)
    requires |ledger| == |written| && RowsOk(ledger, written, t.acct, id) && e.id in t.sources
    ensures RowsOk(ledger + [e], written + [OneAccount(up)], Delta(t, e.id, sourceType, up, now).acct, id)
  {
    var t' := Delta(t, e.id, sourceType, up, now);
    SrcNameInjective(id, e.id);
    forall k | k in t'.acct && k.source == SrcName(id)
        ensures RowOk(ledger + [e], written + [OneAccount(up)], id, k, t'.acct[k].atFp)
    {
      if id == e.id && OfUpsert(up, k) {
        assert k == KeyFor(SrcName(e.id), sourceType, up) && up in [up];
        WrittenRow(ledger, e, written, OneAccount(up), k, t'.acct[k].atFp);
      } else {
        UntouchedRow(ledger, e, written, OneAccount(up), id, k, t'.acct[k].atFp);
      }
    }
  }

  // ---------- Everything else ----------

  /** A key without its refresh token belongs to the same account. */
  lemma {:induction false} SameAccountSameOrigin(ledger: seq<L.Entry>, written: seq<Written>, id: int, k: AcctKey)
    requires |ledger| == |written|
    ensures Last(ledger, written, id, ClearFingerprint.EmptyRt(k)) == Last(ledger, written, id, k)
  {
    if |ledger| > 0 {
      SameAccountSameOrigin(ledger[..|ledger| - 1], written[..|written| - 1], id, k);
    }
  }

  lemma {:induction false} WithoutCredential(ledger: seq<L.Entry>, written: seq<Written>, id: int, k: AcctKey,
                                             atFp: string)
    requires |ledger| == |written| && RowOk(ledger, written, id, k, atFp)
    ensures RowOk(ledger, written, id, k, "") && RowOk(ledger, written, id, ClearFingerprint.EmptyRt(k), atFp)
  {
    SameAccountSameOrigin(ledger, written, id, k);
  }

  /** Clearing a fingerprint takes credentials away and moves some within their account. */
  lemma {:induction false} ClearAllRowsOk(ledger: seq<L.Entry>, written: seq<Written>, acct: AcctMap,
                                          hits: seq<AcctKey>, fp: string, now: int, id: int)
    requires |ledger| == |written| && RowsOk(ledger, written, acct, id)
    requires forall k :: k in hits ==> k in acct
    ensures RowsOk(ledger, written, ClearFingerprint.ClearAll(acct, hits, fp, now), id)
  {
    if |hits| > 0 {
      var rest, h := hits[..|hits| - 1], hits[|hits| - 1];
      assert h in hits;
      ClearAllRowsOk(ledger, written, acct, rest, fp, now, id);
      ClearOneRowsOk(ledger, written, ClearFingerprint.ClearAll(acct, rest, fp, now), h, acct[h], fp, now, id);
    }
  }

  lemma {:induction false} ClearOneRowsOk(ledger: seq<L.Entry>, written: seq<Written>, cur: AcctMap, h: AcctKey,
                                          v: AcctVal, fp: string, now: int, id: int)
    requires |ledger| == |written| && RowsOk(ledger, written, cur, id)
    requires h.source == SrcName(id) ==> RowOk(ledger, written, id, h, v.atFp)
    ensures RowsOk(ledger, written, ClearFingerprint.ClearOne(cur, h, v, fp, now), id)
  {
    var after := ClearFingerprint.ClearOne(cur, h, v, fp, now);
    if h.source == SrcName(id) {
      WithoutCredential(ledger, written, id, h, v.atFp);
    }
    forall k | k in after && k.source == SrcName(id) ensures RowOk(ledger, written, id, k, after[k].atFp) {
      if k in cur {
        WithoutCredential(ledger, written, id, k, cur[k].atFp);
      }
    }
  }

  /** A store operation that is not about sources writes no row of a source. */
  lemma {:induction false} OtherRowsOk(ledger: seq<L.Entry>, written: seq<Written>, t: Tables, op: StoreRuns.Op,
                                       id: int)
    requires |ledger| == |written| && RowsOk(ledger, written, t.acct, id) && !StoreRuns.IsSourceOp(op)
    ensures RowsOk(ledger, written, StoreRuns.Apply(t, op).acct, id)
  {
    if op.OpClearFp? && forall k :: k in op.hits ==> k in t.acct {
      ClearAllRowsOk(ledger, written, t.acct, op.hits, op.fp, op.now, id);
    } else {
      SrcNameInjective(id, id);
      forall k | k in StoreRuns.Apply(t, op).acct && k.source == SrcName(id)
          ensures k in t.acct && StoreRuns.Apply(t, op).acct[k] == t.acct[k]
      {
      }
    }
  }

  // ---------- All events ----------

  ghost predicate WorldOk(w: World) {
    && L.Sound(w.life) && Inv(w.db.t) && Aligned(w.life, w.db)
    && |w.written| == |w.life.ledger|
    && forall id :: RowsOk(w.life.ledger, w.written, w.db.t.acct, id)
  }

  lemma {:induction false} FewerRowsOk(ledger: seq<L.Entry>, written: seq<Written>, acct: AcctMap, acct': AcctMap)
    requires |ledger| == |written| && forall id :: RowsOk(ledger, written, acct, id)
    requires forall k :: k in acct' ==> k in acct && acct'[k] == acct[k]
    ensures forall id :: RowsOk(ledger, written, acct', id)
  {
    forall id ensures RowsOk(ledger, written, acct', id) {
      assert RowsOk(ledger, written, acct, id);
    }
  }

  lemma {:induction false} CreatedOk(w: World, e: Event)
    requires WorldOk(w) && Enabled(w, e) && e.Created?
    ensures WorldOk(Next(w, e))
  {
    CreatedAligned(w, e);
    SourceSteps.StepOk(w.life, L.CreateSource(ConfigOf(Next(w, e).db, w.db.t.nextSource)));
    CreatedInv(w.db, e.row, e.apiKey, e.dsn);
  }

  lemma {:induction false} ChangedOk(w: World, e: Event)
    requires WorldOk(w) && Enabled(w, e) && e.Changed?
    ensures WorldOk(Next(w, e))
  {
    var id := L.PcOf(w.life, e.t).job.id;
    ChangedAligned(w, e);
    SourceSteps.StepOk(w.life, L.JobCommit(e.t));
    CommitsConfig(w.life, e.t);
    StoreRuns.ApplyKeeps(w.db.t, StoreRuns.OpUpdateSource(id, e.row.(dbSecret := S.Column(id, e.row, e.req))));
  }

  lemma {:induction false} RemovedOk(w: World, e: Event)
    requires WorldOk(w) && Enabled(w, e) && e.Removed?
    ensures WorldOk(Next(w, e))
  {
    RemovedAligned(w, e);
    SourceSteps.StepOk(w.life, L.JobCommit(e.t));
    CommitsConfig(w.life, e.t);
    StoreRuns.ApplyKeeps(w.db.t, StoreRuns.OpDeleteSource(L.PcOf(w.life, e.t).job.id));
    FewerRowsOk(w.life.ledger, w.written, w.db.t.acct, Next(w, e).db.t.acct);
  }

  lemma {:induction false} CreatedInv(db: S.Db, row: SourceRow, apiKey: string, dsn: string)
    requires Inv(db.t)
    ensures var db' := S.CreateConfig(db, row, apiKey, dsn); Inv(db'.t) && db'.t.acct == db.t.acct
  {
    StoreRuns.ApplyKeeps(db.t, StoreRuns.OpCreateSource(S.NewRow(row, db.t.nextSource, dsn)));
  }

  /** The commits of synchronisations and readers: one more entry, the sources as they were. */
  lemma {:induction false} RecordsOne(w: World, e: Event, id: int) returns (entry: L.Entry)
    requires (forall j :: AlignedAt(w.life, w.db, j)) && Enabled(w, e)
    requires (e.Synced? && id == L.PcOf(w.life, e.t).id) || (e.Applied? && id == w.life.readers[e.r].id)
    ensures entry.id == id && id in w.db.t.sources
    ensures var life' := Next(w, e).life;
      life'.ledger == w.life.ledger + [entry] && life'.sources == w.life.sources && life'.nextId == w.life.nextId
  {
    assert AlignedAt(w.life, w.db, id);
    entry := Next(w, e).life.ledger[|w.life.ledger|];
  }

  lemma {:induction false} SyncedRowsOk(w: World, e: Event)
    requires Enabled(w, e) && e.Synced? && |w.written| == |w.life.ledger| && forall j :: AlignedAt(w.life, w.db, j)
    requires forall id :: RowsOk(w.life.ledger, w.written, w.db.t.acct, id)
    ensures |Next(w, e).written| == |Next(w, e).life.ledger|
    ensures forall id :: RowsOk(Next(w, e).life.ledger, Next(w, e).written, Next(w, e).db.t.acct, id)
  {
    var w' := Next(w, e);
    var entry := RecordsOne(w, e, L.PcOf(w.life, e.t).id);
    forall j ensures RowsOk(w'.life.ledger, w'.written, w'.db.t.acct, j) {
      assert RowsOk(w.life.ledger, w.written, w.db.t.acct, j);
      SnapshotRowsOk(w.db.t, w.life.ledger, entry, w.written, e.sourceType, e.keep, e.threshold, e.now, j);
    }
  }

  lemma {:induction false} SnapshotSources(t: Tables, id: int, sourceType: string, keep: seq<Upsert>, threshold: int,
                                           now: int)
    ensures SameSources(t, GuardedSnapshot(t, id, sourceType, keep, threshold, now))
  {
  }

  lemma {:induction false} SyncedTablesOk(w: World, e: Event)
    requires Enabled(w, e) && e.Synced? && Inv(w.db.t) && Aligned(w.life, w.db)
    ensures Inv(Next(w, e).db.t) && Aligned(Next(w, e).life, Next(w, e).db)
  {
    var id := L.PcOf(w.life, e.t).id;
    var entry := RecordsOne(w, e, id);
    StoreRuns.ApplyKeeps(w.db.t, StoreRuns.OpSnapshot(id, e.sourceType, e.keep, e.threshold, e.now));
    SnapshotSources(w.db.t, id, e.sourceType, e.keep, e.threshold, e.now);
    StoreOpAligned(w.life, Next(w, e).life, w.db, Next(w, e).db.t);
  }

  lemma {:induction false} SyncedOk(w: World, e: Event)
    requires WorldOk(w) && Enabled(w, e) && e.Synced?
    ensures WorldOk(Next(w, e))
  {
    SyncedSound(w, e);
    SyncedTablesOk(w, e);
    SyncedRowsOk(w, e);
  }

  lemma {:induction false} SyncedSound(w: World, e: Event)
    requires L.Sound(w.life) && Enabled(w, e) && e.Synced?
    ensures L.Sound(Next(w, e).life)
  {
    var outcome := OutcomeOf(w, e);
    SourceSteps.StepOk(w.life, L.SyncCommit(e.t, !outcome.SourceGone? && !outcome.Deferred?));
  }

  lemma {:induction false} AppliedOk(w: World, e: Event)
    requires WorldOk(w) && Enabled(w, e) && e.Applied?
    ensures WorldOk(Next(w, e))
  {
    var w', id := Next(w, e), w.life.readers[e.r].id;
    var entry := RecordsOne(w, e, id);
    SourceSteps.StepOk(w.life, L.ReaderApply(e.r));
    StoreRuns.ApplyKeeps(w.db.t, StoreRuns.OpDelta(id, e.sourceType, e.up, e.now));
    StoreOpAligned(w.life, w'.life, w.db, w'.db.t);
    forall j ensures RowsOk(w'.life.ledger, w'.written, w'.db.t.acct, j) {
      assert RowsOk(w.life.ledger, w.written, w.db.t.acct, j);
      DeltaRowsOk(w.db.t, w.life.ledger, entry, w.written, e.sourceType, e.up, e.now, j);
    }
  }

  /** Steps that commit nothing, and operations of other handlers. */
  lemma {:induction false} OtherEventOk(w: World, e: Event)
    requires WorldOk(w) && Enabled(w, e) && (e.Life? || e.Other?)
    ensures WorldOk(Next(w, e))
  {
    if e.Life? {
      SourceSteps.StepOk(w.life, e.a);
      LifeKeepsSources(w.life, e.a);
      forall id ensures AlignedAt(Next(w, e).life, w.db, id) {
        assert AlignedAt(w.life, w.db, id);
      }
    } else {
      StoreRuns.ApplyKeeps(w.db.t, e.op);
      StoreRuns.OthersLeaveSources(w.db.t, e.op);
      StoreOpAligned(w.life, w.life, w.db, Next(w, e).db.t);
      forall id ensures RowsOk(w.life.ledger, w.written, Next(w, e).db.t.acct, id) {
        assert RowsOk(w.life.ledger, w.written, w.db.t.acct, id);
        OtherRowsOk(w.life.ledger, w.written, w.db.t, e.op, id);
      }
    }
  }

  lemma {:induction false} EventOk(w: World, e: Event)
    requires WorldOk(w) && Enabled(w, e)
    ensures WorldOk(Next(w, e))
  {
    if e.Synced? {
      SyncedOk(w, e);
    } else if e.Applied? {
      AppliedOk(w, e);
    } else if e.Life? || e.Other? {
      OtherEventOk(w, e);
    } else if e.Created? {
      CreatedOk(w, e);
    } else if e.Changed? {
      ChangedOk(w, e);
    } else {
      RemovedOk(w, e);
    }
  }

  lemma {:induction false} ReachesOk(w: World, events: seq<Event>, w': World)
    requires WorldOk(w) && Reaches(w, events, w')
    ensures WorldOk(w')
    decreases |events|
  {
    if |events| > 0 {
      EventOk(w, events[0]);
      ReachesOk(Next(w, events[0]), events[1..], w');
    }
  }

  lemma {:induction false} NewOk()
    ensures WorldOk(NEW)
  {
    StoreRuns.EmptyStoreInv();
  }

  // ---------- Main results ----------

  /** In every run the configuration the life cycle works with is the stored one: rows, API
      keys and DSNs. */
  lemma {:induction false} LifeSeesStoredConfig(events: seq<Event>, w: World, id: int)
    requires Reaches(NEW, events, w)
    ensures id in w.life.sources <==> id in w.db.t.sources
    ensures id in w.life.sources ==> w.life.sources[id] == ConfigOf(w.db, id)
  {
    NewOk();
    ReachesOk(NEW, events, w);
    assert AlignedAt(w.life, w.db, id);
  }

  /** In every run, whatever else happened to the account map, a row of a source belongs to a
      source that is there, and its credentials were supplied by the last snapshot or delta that
      replaced the source's rows for that account; that one was fetched under the configuration
      in force when it was committed. */
  lemma {:induction false} RowsAreFresh(events: seq<Event>, w: World, id: int, k: AcctKey)
    requires Reaches(NEW, events, w) && k in w.db.t.acct && k.source == SrcName(id)
    ensures |w.written| == |w.life.ledger| && id in w.db.t.sources
    ensures var i := Last(w.life.ledger, w.written, id, k);
      && i.Some? && w.life.ledger[i.value].id == id && Replaces(w.written[i.value], k)
      && Carried(Ups(w.written[i.value]), k, w.db.t.acct[k].atFp)
      && L.FetchedUnder(w.life.ledger[i.value].evidence, w.life.ledger[i.value].inForce)
      && L.Entitled(w.life.ledger[i.value].evidence, w.life.ledger[i.value].inForce)
    ensures exists up :: up in Ups(w.written[Last(w.life.ledger, w.written, id, k).value]) && OfUpsert(up, k)
  {
    NewOk();
    ReachesOk(NEW, events, w);
    assert RowsOk(w.life.ledger, w.written, w.db.t.acct, id);
    assert RowOk(w.life.ledger, w.written, id, k, w.db.t.acct[k].atFp);
    assert OwnerLive(w.db.t, k.source);
    SrcNameInjective(id, id);
    var owner :| owner in w.db.t.sources && SrcName(owner) == k.source;
    SrcNameInjective(id, owner);
  }
}
