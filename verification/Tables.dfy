/** The four tables as maps from primary keys, and every transaction on them as a
    function from tables to tables.  A failed transaction is rolled back: it leaves
    the tables as they were. */
module Tables {
  import opened Text

  // ---------- Rows ----------

  /** The primary key of acct_map. */
  datatype AcctKey = AcctKey(platform: string, source: string, account: string, rtFp: string, sourceType: string)

  datatype AcctVal = AcctVal(atFp: string, atHint: string, rtHint: string, updatedAt: int)

  /** The primary key of acct_egress. */
  datatype EgressKey = EgressKey(platform: string, account: string, egressId: int)

  datatype EgressVal = EgressVal(mode: string, createdAt: int, updatedAt: int)

  datatype SourceRow = SourceRow(kind: string, name: string, baseUrl: string, authDir: string, dbSecret: string,
                                 enabled: bool, emptyStreak: nat)

  datatype UpstreamRow = UpstreamRow(name: string, platform: string, baseUrl: string, inject: string, enabled: bool)

  type AcctMap = map<AcctKey, AcctVal>
  type EgressMap = map<EgressKey, EgressVal>

  /** Row IDs are handed out in increasing order and never again. */
  datatype Tables = Tables(acct: AcctMap, egress: EgressMap,
                           sources: map<int, SourceRow>, nextSource: int,
                           upstreams: map<int, UpstreamRow>, nextUpstream: int)

  const NO_TABLES := Tables(map[], map[], map[], 1, map[], 1)

  /** One account's credentials in a snapshot, a delta or a push. */
  datatype Upsert = Upsert(platform: string, account: string, atFp: string, rtFp: string, atHint: string,
      rtHint: string)

  /** Why a transaction was refused. */
  datatype StoreError = NoError | NameTaken | SourceMissing | HasBindingsError | SecretTaken | SetAndClear | DsnEmpty

  const PUSH := "api"
  const PLAIN := "plain"
  const STICKY := "sticky"
  const RANDOM := "random"

  /** The name under which a source owns rows of acct_map. */
  function SrcName(id: int): string { "src:" + Itoa(id) }

  lemma {:induction false} SrcNameInjective(a: int, b: int)
    ensures SrcName(a) == SrcName(b) <==> a == b
    ensures SrcName(a) != PUSH
  {
    ItoaInjective(a, b);
    if SrcName(a) == SrcName(b) {
      assert Itoa(a) == SrcName(a)[4..] == SrcName(b)[4..] == Itoa(b);
    }
    assert SrcName(a)[0] == 's' && PUSH[0] == 'a';
  }

  // ---------- Account rows and the binding clean-up ----------

  predicate OfAccount(k: AcctKey, platform: string, account: string) {
    k.platform == platform && k.account == account
  }

  predicate AcctLive(acct: AcctMap, platform: string, account: string) {
    exists k :: k in acct && OfAccount(k, platform, account)
  }

  /** Drop the bindings of accounts without a row. */
  function Gc(acct: AcctMap, egress: EgressMap): EgressMap {
    map k | k in egress && AcctLive(acct, k.platform, k.account) :: egress[k]
  }

  function WithAcct(t: Tables, acct: AcctMap): Tables {
    t.(acct := acct, egress := Gc(acct, t.egress))
  }

  function WithoutSource(acct: AcctMap, source: string): AcctMap {
    map k | k in acct && k.source != source :: acct[k]
  }

  function KeyFor(source: string, sourceType: string, up: Upsert): AcctKey {
    AcctKey(up.platform, source, up.account, up.rtFp, sourceType)
  }

  function ValFor(up: Upsert, now: int): AcctVal { AcctVal(up.atFp, up.atHint, up.rtHint, now) }

  /** Insert in order; a later row with the same key replaces an earlier one. */
  function InsertAll(acct: AcctMap, source: string, sourceType: string, keep: seq<Upsert>, now: int): AcctMap {
    if |keep| == 0 then acct
    else
      var last := keep[|keep| - 1];
      var before := InsertAll(acct, source, sourceType, keep[..|keep| - 1], now);
      before[KeyFor(source, sourceType, last) := ValFor(last, now)]
  }

  // ---------- Snapshots and deltas of a source ----------

  datatype SnapshotOutcome = SourceGone | NothingToClear | Deferred(streak: nat) | Cleared(streak: nat) | Replaced

  predicate OwnsRows(acct: AcctMap, source: string) { exists k :: k in acct && k.source == source }

  function WithStreak(t: Tables, id: int, streak: nat): Tables
    requires id in t.sources
  {
    t.(sources := t.sources[id := t.sources[id].(emptyStreak := streak)])
  }

  /** ReplaceSourceSnapshot: the unguarded replacement of a source's rows. */
  function ReplaceSnapshot(t: Tables, id: int, sourceType: string, keep: seq<Upsert>, now: int): Tables {
    if id !in t.sources then t
    else WithAcct(t, InsertAll(WithoutSource(t.acct, SrcName(id)), SrcName(id), sourceType, keep, now))
  }

  function GuardOutcome(t: Tables, id: int, keep: seq<Upsert>, threshold: int): SnapshotOutcome {
    if id !in t.sources then SourceGone
    else if |keep| > 0 then Replaced
    else if !OwnsRows(t.acct, SrcName(id)) then NothingToClear
    else
      var next := t.sources[id].emptyStreak + 1;
      if next < (if threshold < 1 then 1 else threshold) then Deferred(next) else Cleared(next)
  }

  /** ReplaceSourceSnapshotGuarded: an empty snapshot is only believed after
      `threshold` of them in a row. */
  function GuardedSnapshot(t: Tables, id: int, sourceType: string, keep: seq<Upsert>, threshold: int,
                           now: int): Tables
  {
    match GuardOutcome(t, id, keep, threshold)
    case SourceGone => t
    case NothingToClear => WithStreak(t, id, 0)
    case Deferred(n) => WithStreak(t, id, n)
    case Cleared(n) => WithStreak(WithAcct(t, WithoutSource(t.acct, SrcName(id))), id, n)
    case Replaced => WithStreak(ReplaceSnapshot(t, id, sourceType, keep, now), id, 0)
  }

  /** ApplyAccountDelta: the rows one source has for one account, replaced. */
  function Delta(t: Tables, id: int, sourceType: string, up: Upsert, now: int): Tables {
    if id !in t.sources then t
    else
      var rest := map k | k in t.acct
          && !(k.source == SrcName(id) && OfAccount(k, up.platform, up.account)) :: t.acct[k];
      WithAcct(t, if up.atFp != "" || up.rtFp != ""
                  then rest[KeyFor(SrcName(id), sourceType, up) := ValFor(up, now)] else rest)
  }

  /** DeleteAcctMapAccount: of one source, or of all when the source is empty. */
  function DeleteAccount(t: Tables, platform: string, account: string, source: string): Tables {
    WithAcct(t, map k | k in t.acct
        && !(OfAccount(k, platform, account) && (source == "" || k.source == source)) :: t.acct[k])
  }

  // ---------- Sources ----------

  predicate SourceNameTaken(t: Tables, name: string, except: int) {
    exists id :: id in t.sources && id != except && t.sources[id].name == name
  }

  function CreateSource(t: Tables, row: SourceRow): Tables {
    if SourceNameTaken(t, row.name, -1) then t
    else t.(sources := t.sources[t.nextSource := row.(emptyStreak := 0)], nextSource := t.nextSource + 1)
  }

  function UpdateSource(t: Tables, id: int, row: SourceRow): Tables {
    if id !in t.sources || SourceNameTaken(t, row.name, id) then t
    else t.(sources := t.sources[id := row.(emptyStreak := t.sources[id].emptyStreak)])
  }

  /** DeleteSyncSource: the rows, the orphaned bindings and the source together. */
  function DeleteSource(t: Tables, id: int): Tables {
    WithAcct(t, WithoutSource(t.acct, SrcName(id))).(sources := t.sources - {id})
  }

  // ---------- Bindings ----------

  predicate ValidMode(mode: string) { mode == STICKY || mode == RANDOM }

  predicate BindingOf(k: EgressKey, platform: string, account: string) {
    k.platform == platform && k.account == account
  }

  function BindingRows(platform: string, account: string, mode: string, ids: seq<int>, now: int): EgressMap {
    var keys := set id | id in ids :: EgressKey(platform, account, id);
    map k | k in keys :: EgressVal(mode, now, now)
  }

  /** ReplaceAccountBinding: the account's exits become exactly `ids`. */
  function ReplaceBinding(t: Tables, platform: string, account: string, mode: string, ids: seq<int>, now: int): Tables {
    var kept := map k | k in t.egress && !BindingOf(k, platform, account) :: t.egress[k];
    t.(egress := Gc(t.acct, kept + BindingRows(platform, account, mode, ids, now)))
  }

  datatype Assign = Assign(platform: string, account: string, mode: string)

  /** A mode the account already has for this exit wins over the requested one. */
  function ModeFor(egress: EgressMap, egressId: int, a: Assign): string {
    var k := EgressKey(a.platform, a.account, egressId);
    var mode := if k in egress && egress[k].mode != "" then egress[k].mode else a.mode;
    if ValidMode(mode) then mode else STICKY
  }

  /** Insert the assignments in order, on top of rows without the exit. */
  function InsertAssigns(before: EgressMap, rest: EgressMap, egressId: int, assign: seq<Assign>, now: int): EgressMap {
    if |assign| == 0 then rest
    else
      var a := assign[|assign| - 1];
      InsertAssigns(before, rest, egressId, assign[..|assign| - 1], now)
        [EgressKey(a.platform, a.account, egressId) := EgressVal(ModeFor(before, egressId, a), now, now)]
  }

  /** ReplaceEgressAccounts: the exit's accounts become exactly the assigned ones. */
  function ReplaceAssigned(t: Tables, egressId: int, assign: seq<Assign>, now: int): Tables {
    var rest := map k | k in t.egress && k.egressId != egressId :: t.egress[k];
    t.(egress := Gc(t.acct, InsertAssigns(t.egress, rest, egressId, assign, now)))
  }

  // ---------- Exits ----------

  predicate IsPlain(t: Tables, id: int) { id in t.upstreams && t.upstreams[id].platform == PLAIN }

  predicate UpstreamNameTaken(t: Tables, name: string, except: int) {
    exists id :: id in t.upstreams && id != except && t.upstreams[id].name == name
  }

  predicate HasBindings(t: Tables, id: int) { exists k :: k in t.egress && k.egressId == id }

  function CreateUpstream(t: Tables, row: UpstreamRow): Tables {
    if UpstreamNameTaken(t, row.name, -1) then t
    else t.(upstreams := t.upstreams[t.nextUpstream := row], nextUpstream := t.nextUpstream + 1)
  }

  /** The update is refused when it would change the platform of a bound exit. */
  function UpdateUpstream(t: Tables, id: int, row: UpstreamRow): Tables {
    if id in t.upstreams && (t.upstreams[id].platform == row.platform || !HasBindings(t, id))
       && !UpstreamNameTaken(t, row.name, id)
    then t.(upstreams := t.upstreams[id := row])
    else t
  }

  function DeleteUpstream(t: Tables, id: int): Tables {
    t.(egress := map k | k in t.egress && k.egressId != id :: t.egress[k], upstreams := t.upstreams - {id})
  }

  // ---------- What the tables promise each other ----------

  ghost predicate BoundAccountsLive(t: Tables) {
    forall k :: k in t.egress ==> AcctLive(t.acct, k.platform, k.account)
  }

  ghost predicate OwnerLive(t: Tables, source: string) {
    source == PUSH || exists id :: id in t.sources && SrcName(id) == source
  }

  ghost predicate OwnersLive(t: Tables) {
    forall k :: k in t.acct ==> OwnerLive(t, k.source)
  }

  ghost predicate RowsNonEmpty(acct: AcctMap) {
    forall k :: k in acct ==> k.rtFp != "" || acct[k].atFp != ""
  }

  ghost predicate BoundExitsPlain(t: Tables) {
    forall k :: k in t.egress ==> IsPlain(t, k.egressId)
  }

  ghost predicate IdsBelowNext(t: Tables) {
    && (forall id :: id in t.sources ==> 0 < id < t.nextSource)
    && (forall id :: id in t.upstreams ==> 0 < id < t.nextUpstream)
    && 0 < t.nextSource && 0 < t.nextUpstream
  }

  ghost predicate NamesUnique(t: Tables) {
    && (forall a, b :: a in t.sources && b in t.sources && t.sources[a].name == t.sources[b].name ==> a == b)
    && (forall a, b :: a in t.upstreams && b in t.upstreams && t.upstreams[a].name == t.upstreams[b].name ==> a == b)
  }

  ghost predicate Inv(t: Tables) {
    BoundAccountsLive(t) && OwnersLive(t) && RowsNonEmpty(t.acct) && BoundExitsPlain(t) && IdsBelowNext(t)
        && NamesUnique(t)
  }
}
