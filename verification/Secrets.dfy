/** The secrets of the sources: API keys and database DSNs, kept in a table of their own
    under names made from the source's ID, while the source's row names its DSN only. */
module Secrets {
  import opened Text
  import opened Tables
  import StoreRuns

  type SecretMap = map<string, string>

  datatype Db = Db(t: Tables, secrets: SecretMap)

  /** A request about the DSN: a new one, none any more, or (neither) the one there is. */
  datatype DsnRequest = DsnRequest(set_: bool, clear: bool, dsn: string)

  const SUB2API := "sub2api"
  const API_KEY := "source_key_"
  const DIRECT_DB := "source_direct_db_"

  function ApiKeyName(id: int): string { API_KEY + Itoa(id) }

  function DsnName(id: int): string { DIRECT_DB + Itoa(id) }

  function Put(secrets: SecretMap, present: bool, key: string, value: string): SecretMap {
    if present then secrets[key := value] else secrets
  }

  function Get(secrets: SecretMap, key: string): Option<string> {
    if key in secrets then Some(secrets[key]) else None
  }

  // ---------- Reading ----------

  function ApiKeyOf(db: Db, id: int): Option<string> { Get(db.secrets, ApiKeyName(id)) }

  function DsnOf(db: Db, id: int): Option<string> {
    if id !in db.t.sources || db.t.sources[id].dbSecret == "" then None
    else Get(db.secrets, db.t.sources[id].dbSecret)
  }

  // ---------- Creating a source ----------

  predicate StoresDsn(kind: string, dsn: string) { kind == SUB2API && TrimSpace(dsn) != "" }

  /** The names of both secrets must be free; they are stored one after the other. */
  predicate NamesFree(secrets: SecretMap, id: int, kind: string, apiKey: string, dsn: string) {
    && (apiKey != "" ==> ApiKeyName(id) !in secrets)
    && (StoresDsn(kind, dsn) ==> DsnName(id) !in Put(secrets, apiKey != "", ApiKeyName(id), apiKey))
  }

  function CreateError(db: Db, row: SourceRow, apiKey: string, dsn: string): StoreError {
    if SourceNameTaken(db.t, row.name, -1) then NameTaken
    else if !NamesFree(db.secrets, db.t.nextSource, row.kind, apiKey, dsn) then SecretTaken
    else NoError
  }

  function NewSecrets(secrets: SecretMap, id: int, kind: string, apiKey: string, dsn: string): SecretMap {
    Put(Put(secrets, apiKey != "", ApiKeyName(id), apiKey), StoresDsn(kind, dsn), DsnName(id), dsn)
  }

  function NewRow(row: SourceRow, id: int, dsn: string): SourceRow {
    row.(dbSecret := if StoresDsn(row.kind, dsn) then DsnName(id) else "")
  }

  function CreateConfig(db: Db, row: SourceRow, apiKey: string, dsn: string): Db {
    var id := db.t.nextSource;
    if CreateError(db, row, apiKey, dsn) != NoError then db
    else Db(CreateSource(db.t, NewRow(row, id, dsn)), NewSecrets(db.secrets, id, row.kind, apiKey, dsn))
  }

  lemma {:induction false} NewSecretsElsewhere(secrets: SecretMap, id: int, kind: string, apiKey: string, dsn: string,
                                               key: string)
    requires key !in {ApiKeyName(id), DsnName(id)}
    ensures Get(NewSecrets(secrets, id, kind, apiKey, dsn), key) == Get(secrets, key)
  {
  }

  // ---------- Updating a source ----------

  function UpdateError(db: Db, id: int, row: SourceRow, req: DsnRequest): StoreError {
    if req.set_ && req.clear then SetAndClear
    else if req.set_ && TrimSpace(req.dsn) == "" then DsnEmpty
    else if id in db.t.sources && SourceNameTaken(db.t, row.name, id) then NameTaken
    else NoError
  }

  /** The caller's row is what it read, perhaps some versions ago. */
  function Column(id: int, row: SourceRow, req: DsnRequest): string {
    if req.clear || row.kind != SUB2API then "" else if req.set_ then DsnName(id) else row.dbSecret
  }

  function Dropped(id: int, row: SourceRow, req: DsnRequest): set<string> {
    var was := TrimSpace(row.dbSecret);
    if req.clear || row.kind != SUB2API then {DsnName(id), was}
    else if req.set_ && was != "" && was != DsnName(id) then {was}
    else {}
  }

  function UpdatedSecrets(secrets: SecretMap, id: int, row: SourceRow, apiKey: string, req: DsnRequest): SecretMap {
    Put(Put(secrets - Dropped(id, row, req), req.set_, DsnName(id), req.dsn), apiKey != "", ApiKeyName(id), apiKey)
  }

  /** A missing source is no error here, and the secrets are written all the same. */
  function UpdateConfig(db: Db, id: int, row: SourceRow, apiKey: string, req: DsnRequest): Db {
    if UpdateError(db, id, row, req) != NoError then db
    else Db(UpdateSource(db.t, id, row.(dbSecret := Column(id, row, req))),
            UpdatedSecrets(db.secrets, id, row, apiKey, req))
  }

  lemma {:induction false} UpdatedSecretsElsewhere(secrets: SecretMap, id: int, row: SourceRow, apiKey: string,
                                                   req: DsnRequest, key: string)
    requires key !in {ApiKeyName(id), DsnName(id)} && key !in Dropped(id, row, req)
    ensures Get(UpdatedSecrets(secrets, id, row, apiKey, req), key) == Get(secrets, key)
  {
  }

  // ---------- Deleting a source ----------

  function DeleteConfig(db: Db, id: int): Db {
    var column := if id in db.t.sources then db.t.sources[id].dbSecret else "";
    Db(DeleteSource(db.t, id), db.secrets - {ApiKeyName(id), DsnName(id), column})
  }

  // ---------- Names ----------

  lemma {:induction false} ItoaTrimmed(id: int)
    ensures Itoa(id) != "" && !IsSpace(Itoa(id)[|Itoa(id)| - 1])
  {
    var digits := NatDigits(if id < 0 then -id else id);
    assert Itoa(id)[|Itoa(id)| - 1] == digits[|digits| - 1];
    assert digits[|digits| - 1] in digits;
    assert forall c :: c in DIGITS ==> !IsSpace(c);
  }

  lemma {:induction false} DsnNameTrimmed(id: int)
    ensures TrimSpace(DsnName(id)) == DsnName(id) && DsnName(id) != ""
  {
    ItoaTrimmed(id);
    assert DsnName(id)[0] == 's' && DsnName(id)[|DsnName(id)| - 1] == Itoa(id)[|Itoa(id)| - 1];
    assert Trimmed(DsnName(id));
    TrimSpaceFacts(DsnName(id));
  }

  lemma {:induction false} NamesInjective(a: int, b: int)
    ensures ApiKeyName(a) == ApiKeyName(b) ==> a == b
    ensures DsnName(a) == DsnName(b) ==> a == b
  {
    ItoaInjective(a, b);
    SamePrefix(API_KEY, Itoa(a), Itoa(b));
    SamePrefix(DIRECT_DB, Itoa(a), Itoa(b));
  }

  lemma {:induction false} KindsDiffer(a: string, b: string)
    ensures API_KEY + a != DIRECT_DB + b && API_KEY + a != "" && DIRECT_DB + b != ""
  {
    assert (API_KEY + a)[7] == 'k' && (DIRECT_DB + b)[7] == 'd';
  }

  lemma {:induction false} NamesDiffer(a: int, b: int)
    ensures ApiKeyName(a) == ApiKeyName(b) <==> a == b
    ensures DsnName(a) == DsnName(b) <==> a == b
    ensures ApiKeyName(a) != DsnName(b) && ApiKeyName(a) != "" && DsnName(b) != ""
  {
    NamesInjective(a, b);
    KindsDiffer(Itoa(a), Itoa(b));
  }

  // ---------- The invariant ----------

  predicate ColumnOk(row: SourceRow, id: int) {
    row.dbSecret == "" || (row.dbSecret == DsnName(id) && row.kind == SUB2API)
  }

  /** No secret of a source that is not there, a DSN exactly where the row names it, and no
      row names any DSN but its own. */
  predicate SourceSecretsOk(db: Db, id: int) {
    && (ApiKeyName(id) in db.secrets ==> id in db.t.sources)
    && (DsnName(id) in db.secrets <==> id in db.t.sources && db.t.sources[id].dbSecret == DsnName(id))
    && (id in db.t.sources ==> ColumnOk(db.t.sources[id], id))
  }

  ghost predicate SecretsOk(db: Db) { forall id :: SourceSecretsOk(db, id) }

  predicate SameSecrets(db: Db, db': Db, id: int) {
    ApiKeyOf(db, id) == ApiKeyOf(db', id) && DsnOf(db, id) == DsnOf(db', id)
  }

  ghost predicate SourceIdsBelowNext(t: Tables) {
    0 < t.nextSource && forall id :: id in t.sources ==> 0 < id < t.nextSource
  }

  lemma {:induction false} CreateAt(db: Db, row: SourceRow, apiKey: string, dsn: string, j: int)
    requires SourceSecretsOk(db, j) && SourceSecretsOk(db, db.t.nextSource) && db.t.nextSource !in db.t.sources
    ensures var after := CreateConfig(db, row, apiKey, dsn);
      SourceSecretsOk(after, j) && (j != db.t.nextSource ==> SameSecrets(db, after, j))
  {
    NamesDiffer(db.t.nextSource, j);
    NamesDiffer(j, db.t.nextSource);
    if j != db.t.nextSource {
      NewSecretsElsewhere(db.secrets, db.t.nextSource, row.kind, apiKey, dsn, ApiKeyName(j));
      NewSecretsElsewhere(db.secrets, db.t.nextSource, row.kind, apiKey, dsn, DsnName(j));
    }
  }

  /** Creating a source never meets a left-over secret, keeps the invariant, and what was
      supplied is what is read afterwards. */
  lemma {:induction false} CreateKeepsSecrets(db: Db, row: SourceRow, apiKey: string, dsn: string)
    requires SecretsOk(db) && SourceIdsBelowNext(db.t)
    ensures CreateError(db, row, apiKey, dsn) == if SourceNameTaken(db.t, row.name, -1) then NameTaken else NoError
    ensures SecretsOk(CreateConfig(db, row, apiKey, dsn))
    ensures CreateError(db, row, apiKey, dsn) == NoError ==>
      var id, after := db.t.nextSource, CreateConfig(db, row, apiKey, dsn);
      && ApiKeyOf(after, id) == (if apiKey != "" then Some(apiKey) else None)
      && DsnOf(after, id) == (if StoresDsn(row.kind, dsn) then Some(dsn) else None)
      && forall j :: j != id ==> SameSecrets(db, after, j)
  {
    var id, after := db.t.nextSource, CreateConfig(db, row, apiKey, dsn);
    NamesDiffer(id, id);
    assert SourceSecretsOk(db, id);
    forall j ensures SourceSecretsOk(after, j) && (j != id ==> SameSecrets(db, after, j)) {
      CreateAt(db, row, apiKey, dsn, j);
    }
  }

  lemma {:induction false} DeleteAt(db: Db, id: int, j: int)
    requires SourceSecretsOk(db, j) && SourceSecretsOk(db, id)
    ensures var after := DeleteConfig(db, id); SourceSecretsOk(after, j) && (j != id ==> SameSecrets(db, after, j))
  {
    NamesDiffer(id, j);
    NamesDiffer(j, id);
  }

  /** Deleting a source takes its secrets along and leaves the others'. */
  lemma {:induction false} DeleteKeepsSecrets(db: Db, id: int)
    requires SecretsOk(db)
    ensures SecretsOk(DeleteConfig(db, id))
    ensures ApiKeyOf(DeleteConfig(db, id), id) == None && DsnOf(DeleteConfig(db, id), id) == None
    ensures forall j :: j != id ==> SameSecrets(db, DeleteConfig(db, id), j)
  {
    assert SourceSecretsOk(db, id);
    forall j ensures var after := DeleteConfig(db, id);
                     SourceSecretsOk(after, j) && (j != id ==> SameSecrets(db, after, j))
    {
      DeleteAt(db, id, j);
    }
  }

  /** Whatever the tables hold, a deletion takes exactly the secrets under the source's two names
      and under the one its row gives. */
  lemma {:induction false} DeleteTakesNamed(db: Db, id: int, key: string)
    ensures Get(DeleteConfig(db, id).secrets, key)
         == if || key == ApiKeyName(id) || key == DsnName(id)
               || (if id in db.t.sources then key == db.t.sources[id].dbSecret else key == "")
            then None else Get(db.secrets, key)
  {
  }

  /** Whatever the tables hold: which secrets an update writes and takes, and which name it leaves
      in the row. */
  lemma {:induction false} UpdateWritesNamed(db: Db, id: int, row: SourceRow, apiKey: string, req: DsnRequest,
                                             key: string)
    requires UpdateError(db, id, row, req) == NoError
    ensures var after, none := UpdateConfig(db, id, row, apiKey, req), req.clear || row.kind != "sub2api";
      && Get(after.secrets, key)
         == (if apiKey != "" && key == ApiKeyName(id) then Some(apiKey)
             else if req.set_ && key == DsnName(id) then Some(req.dsn)
             else if none && (key == DsnName(id) || key == TrimSpace(row.dbSecret)) then None
             else if req.set_ && key != "" && key == TrimSpace(row.dbSecret) then None
             else Get(db.secrets, key))
      && (id in db.t.sources ==>
            after.t.sources[id].dbSecret == if none then "" else if req.set_ then DsnName(id) else row.dbSecret)
  {
  }

  /** When the update leaves source j without a secret of its own too many or too few: the
      updated source is still there or nothing is stored, a DSN comes with the kind that has
      one, and a row that keeps its DSN is not stale; another source's DSN is not dropped. */
  predicate SafeFor(db: Db, id: int, row: SourceRow, apiKey: string, req: DsnRequest, j: int) {
    if j != id then
      j in db.t.sources && db.t.sources[j].dbSecret != "" ==> DsnName(j) !in Dropped(id, row, req)
    else if id !in db.t.sources then apiKey == "" && !req.set_
    else if req.set_ then row.kind == SUB2API
    else req.clear || row.kind != SUB2API || row.dbSecret == db.t.sources[id].dbSecret
  }

  /** An update is refused exactly for a contradictory or blank DSN request and for the name of
      another source, in this order. */
  lemma {:induction false} UpdateRefusals(db: Db, id: int, row: SourceRow, apiKey: string, req: DsnRequest)
    ensures UpdateError(db, id, row, req)
         == if req.set_ && req.clear then SetAndClear
            else if req.set_ && TrimSpace(req.dsn) == "" then DsnEmpty
            else if id in db.t.sources && exists j :: j in db.t.sources && j != id && db.t.sources[j].name == row.name
            then NameTaken else NoError
    ensures UpdateError(db, id, row, req) != NoError ==> UpdateConfig(db, id, row, apiKey, req) == db
  {
  }

  lemma {:induction false} UpdateAt(db: Db, id: int, row: SourceRow, apiKey: string, req: DsnRequest, j: int)
    requires SourceSecretsOk(db, j) && UpdateError(db, id, row, req) == NoError
    ensures SourceSecretsOk(UpdateConfig(db, id, row, apiKey, req), j) <==> SafeFor(db, id, row, apiKey, req, j)
  {
    NamesDiffer(id, j);
    NamesDiffer(j, id);
  }

  /** An update that succeeds keeps the invariant if and only if it is safe for all sources. */
  lemma {:induction false} UpdateKeepsSecrets(db: Db, id: int, row: SourceRow, apiKey: string, req: DsnRequest)
    requires SecretsOk(db) && UpdateError(db, id, row, req) == NoError
    ensures SecretsOk(UpdateConfig(db, id, row, apiKey, req)) <==> forall j :: SafeFor(db, id, row, apiKey, req, j)
  {
    forall j ensures SourceSecretsOk(UpdateConfig(db, id, row, apiKey, req), j)
                     <==> SafeFor(db, id, row, apiKey, req, j)
    {
      assert SourceSecretsOk(db, j);
      UpdateAt(db, id, row, apiKey, req, j);
    }
  }

  /** An update whose row is the one in the table, by a caller that sends a DSN only with the
      kind that has one, is safe: afterwards the new values are read, or the old ones where
      none were sent, and other sources' secrets are as before. */
  lemma {:induction false} FreshUpdateReads(db: Db, id: int, row: SourceRow, apiKey: string, req: DsnRequest)
    requires SecretsOk(db) && UpdateError(db, id, row, req) == NoError
    requires id in db.t.sources && row.dbSecret == db.t.sources[id].dbSecret && (req.set_ ==> row.kind == SUB2API)
    ensures var after := UpdateConfig(db, id, row, apiKey, req);
      && SecretsOk(after)
      && ApiKeyOf(after, id) == (if apiKey != "" then Some(apiKey) else ApiKeyOf(db, id))
      && DsnOf(after, id) == (if req.clear || row.kind != SUB2API then None
                              else if req.set_ then Some(req.dsn) else DsnOf(db, id))
      && forall j :: j != id ==> SameSecrets(db, after, j)
  {
    var after := UpdateConfig(db, id, row, apiKey, req);
    assert SourceSecretsOk(db, id);
    FreshDrops(id, row, req);
    NamesDiffer(id, id);
    forall j ensures SourceSecretsOk(after, j) && (j != id ==> SameSecrets(db, after, j)) {
      assert SourceSecretsOk(db, j);
      NamesDiffer(id, j);
      NamesDiffer(j, id);
      UpdateAt(db, id, row, apiKey, req, j);
    }
  }

  lemma {:induction false} FreshDrops(id: int, row: SourceRow, req: DsnRequest)
    requires row.dbSecret in {"", DsnName(id)}
    ensures Dropped(id, row, req) <= {DsnName(id), ""}
  {
    DsnNameTrimmed(id);
  }

  // ---------- Updates that are not safe ----------

  const NO_DB := Db(NO_TABLES, map[])
  const KEEP := DsnRequest(false, false, "")

  /** Two updates from one reading of the row: the first stores a DSN, the second erases its
      name, and the DSN stays behind where nothing reads or clears it. */
  lemma {:induction false} StaleRowStrandsDsn(row: SourceRow, dsn: string)
    requires row.kind == SUB2API && TrimSpace(dsn) != ""
    ensures
      var db1 := CreateConfig(NO_DB, row, "", "");
      && 1 in db1.t.sources
      && var read := db1.t.sources[1];
      var db2 := UpdateConfig(db1, 1, read, "", DsnRequest(true, false, dsn));
      var db3 := UpdateConfig(db2, 1, read, "", KEEP);
      && DsnOf(db2, 1) == Some(dsn)
      && DsnOf(db3, 1) == None && Get(db3.secrets, DsnName(1)) == Some(dsn) && !SecretsOk(db3)
  {
    var db1 := CreateConfig(NO_DB, row, "", "");
    assert TrimSpace("") == "";
    var read := db1.t.sources[1];
    DsnNameTrimmed(1);
    var db3 := UpdateConfig(UpdateConfig(db1, 1, read, "", DsnRequest(true, false, dsn)), 1, read, "", KEEP);
    assert !SourceSecretsOk(db3, 1);
  }

  /** An update that arrives after the deletion succeeds and stores the API key of a source
      that is not there. */
  lemma {:induction false} LateUpdateStrandsKey(row: SourceRow, apiKey: string)
    requires apiKey != ""
    ensures
      var db1 := CreateConfig(NO_DB, row, "", "");
      && 1 in db1.t.sources
      && var db2 := DeleteConfig(db1, 1);
      var db3 := UpdateConfig(db2, 1, db1.t.sources[1], apiKey, KEEP);
      && UpdateError(db2, 1, db1.t.sources[1], KEEP) == NoError
      && 1 !in db3.t.sources && ApiKeyOf(db3, 1) == Some(apiKey) && !SecretsOk(db3)
  {
    var db1 := CreateConfig(NO_DB, row, "", "");
    var db3 := UpdateConfig(DeleteConfig(db1, 1), 1, db1.t.sources[1], apiKey, KEEP);
    assert !SourceSecretsOk(db3, 1);
  }

  // ---------- Runs ----------

  datatype Action =
    | Create(row: SourceRow, apiKey: string, dsn: string)
    | Update(id: int, row: SourceRow, apiKey: string, req: DsnRequest)
    | Delete(id: int)
    | Other(op: StoreRuns.Op)

  function Step(db: Db, a: Action): Db {
    match a
    case Create(row, apiKey, dsn) => CreateConfig(db, row, apiKey, dsn)
    case Update(id, row, apiKey, req) => UpdateConfig(db, id, row, apiKey, req)
    case Delete(id) => DeleteConfig(db, id)
    case Other(op) => Db(StoreRuns.Apply(db.t, op), db.secrets)
  }

  function Run(db: Db, actions: seq<Action>): Db {
    if |actions| == 0 then db else Step(Run(db, actions[..|actions| - 1]), actions[|actions| - 1])
  }

  /** Updates are refused or safe, and the other operations are not about sources. */
  ghost predicate Careful(db: Db, a: Action) {
    match a
    case Create(_, _, _) => true
    case Update(id, row, apiKey, req) =>
      UpdateError(db, id, row, req) == NoError ==> forall j :: SafeFor(db, id, row, apiKey, req, j)
    case Delete(_) => true
    case Other(op) => !op.OpCreateSource? && !op.OpUpdateSource? && !op.OpDeleteSource?
  }

  ghost predicate CarefulRun(db: Db, actions: seq<Action>) {
    forall i :: 0 <= i < |actions| ==> Careful(Run(db, actions[..i]), actions[i])
  }

  lemma {:induction false} OthersKeepColumns(t: Tables, op: StoreRuns.Op, id: int)
    requires !op.OpCreateSource? && !op.OpUpdateSource? && !op.OpDeleteSource?
    ensures var t' := StoreRuns.Apply(t, op);
      && t'.nextSource == t.nextSource && (id in t'.sources <==> id in t.sources)
      && (id in t.sources ==>
            t'.sources[id].dbSecret == t.sources[id].dbSecret && t'.sources[id].kind == t.sources[id].kind)
  {
    if !StoreRuns.IsSourceOp(op) {
      StoreRuns.OthersLeaveSources(t, op);
    }
  }

  lemma {:induction false} OthersKeepSecrets(db: Db, op: StoreRuns.Op)
    requires SecretsOk(db) && SourceIdsBelowNext(db.t) && Careful(db, Other(op))
    ensures SecretsOk(Step(db, Other(op))) && SourceIdsBelowNext(Step(db, Other(op)).t)
  {
    var after := Step(db, Other(op));
    OthersKeepColumns(db.t, op, 0);
    forall id ensures SourceSecretsOk(after, id) {
      assert SourceSecretsOk(db, id);
      OthersKeepColumns(db.t, op, id);
    }
    forall id | id in after.t.sources ensures 0 < id < after.t.nextSource {
      OthersKeepColumns(db.t, op, id);
    }
  }

  lemma {:induction false} StepKeepsSecrets(db: Db, a: Action)
    requires SecretsOk(db) && SourceIdsBelowNext(db.t) && Careful(db, a)
    ensures SecretsOk(Step(db, a)) && SourceIdsBelowNext(Step(db, a).t)
  {
    match a {
      case Create(row, apiKey, dsn) => CreateKeepsSecrets(db, row, apiKey, dsn);
      case Update(id, row, apiKey, req) =>
        if UpdateError(db, id, row, req) == NoError {
          UpdateKeepsSecrets(db, id, row, apiKey, req);
        }
      case Delete(id) => DeleteKeepsSecrets(db, id);
      case Other(op) =>
        OthersKeepSecrets(db, op);
    }
  }

  /** In every run from an empty store whose updates are safe, no secret is without its
      source and no row without its secret. */
  lemma {:induction false} RunKeepsSecrets(actions: seq<Action>)
    requires CarefulRun(NO_DB, actions)
    ensures SecretsOk(Run(NO_DB, actions)) && SourceIdsBelowNext(Run(NO_DB, actions).t)
  {
    if |actions| > 0 {
      var before := actions[..|actions| - 1];
      assert forall i :: 0 <= i < |before| ==> before[..i] == actions[..i];
      assert CarefulRun(NO_DB, before);
      RunKeepsSecrets(before);
      StepKeepsSecrets(Run(NO_DB, before), actions[|actions| - 1]);
    }
  }
}
