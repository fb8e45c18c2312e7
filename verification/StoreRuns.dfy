/** Runs of the store: every management handler and every synchronisation commit
    as one operation, and what all runs keep. */
module StoreRuns {
  import opened Tables
  import opened PushMerge
  import opened ClearFingerprint

  /** `scan` and `hits` are the rows a query returned, in the order it returned them. */
  datatype Op =
    | OpCreateSource(srow: SourceRow)
    | OpUpdateSource(id: int, srow: SourceRow)
    | OpDeleteSource(id: int)
    | OpSnapshot(id: int, sourceType: string, keep: seq<Upsert>, threshold: int, now: int)
    | OpReplaceSnapshot(id: int, sourceType: string, keep: seq<Upsert>, now: int)
    | OpDelta(id: int, sourceType: string, up: Upsert, now: int)
    | OpPush(platform: string, account: string, sourceType: string, up: Upsert, scan: seq<AcctKey>, now: int)
    | OpDeleteAccount(platform: string, account: string, source: string)
    | OpClearFp(platform: string, account: string, fp: string, hits: seq<AcctKey>, now: int)
    | OpPutBinding(platform: string, account: string, mode: string, ids: seq<int>, now: int)
    | OpDeleteBinding(platform: string, account: string, now: int)
    | OpClearBindings
    | OpPutBatch(egressId: int, accounts: seq<(string, string)>, mode: string, now: int)
    | OpCreateUpstream(urow: UpstreamRow)
    | OpUpdateUpstream(id: int, urow: UpstreamRow)
    | OpDeleteUpstream(id: int)

  // ---------- The binding handlers ----------

  function DefaultMode(mode: string): string { if mode == "" then STICKY else mode }

  /** PUT of an account's exits: refused unless all exits are plain and the account exists. */
  predicate PutBindingAccepted(t: Tables, platform: string, account: string, mode: string, ids: seq<int>) {
    platform != "" && account != "" && ValidMode(DefaultMode(mode))
    && (forall id :: id in ids ==> IsPlain(t, id)) && AcctLive(t.acct, platform, account)
  }

  /** PUT of an exit's accounts: refused unless the exit is plain and all accounts exist. */
  predicate PutBatchAccepted(t: Tables, egressId: int, accounts: seq<(string, string)>, mode: string) {
    ValidMode(DefaultMode(mode)) && IsPlain(t, egressId)
    && forall a :: a in accounts ==> a.0 != "" && a.1 != "" && AcctLive(t.acct, a.0, a.1)
  }

  /** The accounts of a request, each once, in order of first mention. */
  function Dedupe(accounts: seq<(string, string)>, mode: string): seq<Assign> {
    if |accounts| == 0 then []
    else
      var last, rest := accounts[|accounts| - 1], accounts[..|accounts| - 1];
      if last in rest then Dedupe(rest, mode) else Dedupe(rest, mode) + [Assign(last.0, last.1, mode)]
  }

  function Apply(t: Tables, op: Op): Tables {
    match op
    case OpCreateSource(row) => CreateSource(t, row)
    case OpUpdateSource(id, row) => UpdateSource(t, id, row)
    case OpDeleteSource(id) => DeleteSource(t, id)
    case OpSnapshot(id, st, keep, threshold, now) => GuardedSnapshot(t, id, st, keep, threshold, now)
    case OpReplaceSnapshot(id, st, keep, now) => ReplaceSnapshot(t, id, st, keep, now)
    case OpDelta(id, st, up, now) => Delta(t, id, st, up, now)
    case OpPush(p, a, st, up, scan, now) => Push(t, p, a, st, up, scan, now)
    case OpDeleteAccount(p, a, source) => DeleteAccount(t, p, a, source)
    case OpClearFp(p, a, fp, hits, now) => ClearFp(t, p, a, fp, hits, now)
    case OpPutBinding(p, a, mode, ids, now) =>
      if PutBindingAccepted(t, p, a, mode, ids) then ReplaceBinding(t, p, a, DefaultMode(mode), ids, now) else t
    case OpDeleteBinding(p, a, now) => ReplaceBinding(t, p, a, STICKY, [], now)
    case OpClearBindings => t.(egress := map[])
    case OpPutBatch(id, accounts, mode, now) =>
      if PutBatchAccepted(t, id, accounts, mode)
      then ReplaceAssigned(t, id, Dedupe(accounts, DefaultMode(mode)), now) else t
    case OpCreateUpstream(row) => CreateUpstream(t, row)
    case OpUpdateUpstream(id, row) => UpdateUpstream(t, id, row)
    case OpDeleteUpstream(id) => DeleteUpstream(t, id)
  }

  // ---------- What callers supply ----------

  predicate HasCredential(up: Upsert) { up.atFp != "" || up.rtFp != "" }

  /** Snapshots carry accounts with a credential, and queries answer what they were asked. */
  ghost predicate WellFormed(t: Tables, op: Op) {
    match op
    case OpSnapshot(_, _, keep, _, _) => forall up :: up in keep ==> HasCredential(up)
    case OpReplaceSnapshot(_, _, keep, _) => forall up :: up in keep ==> HasCredential(up)
    case OpPush(p, a, st, _, scan, _) => IsScan(t.acct, scan, p, a, st)
    case OpClearFp(p, a, fp, hits, _) => IsHits(t.acct, hits, p, a, fp)
    case _ => true
  }

  function Run(t: Tables, ops: seq<Op>): Tables {
    if |ops| == 0 then t else Apply(Run(t, ops[..|ops| - 1]), ops[|ops| - 1])
  }

  ghost predicate WellFormedRun(t: Tables, ops: seq<Op>) {
    forall i :: 0 <= i < |ops| ==> WellFormed(Run(t, ops[..i]), ops[i])
  }

  lemma {:induction false} WellFormedPrefix(t: Tables, ops: seq<Op>)
    requires WellFormedRun(t, ops) && |ops| > 0
    ensures WellFormedRun(t, ops[..|ops| - 1]) && WellFormed(Run(t, ops[..|ops| - 1]), ops[|ops| - 1])
  {
    var before := ops[..|ops| - 1];
    forall i | 0 <= i < |before| ensures WellFormed(Run(t, before[..i]), before[i]) {
      assert before[..i] == ops[..i] && before[i] == ops[i];
    }
  }

  // ---------- Changing the account rows ----------

  /** The clean-up restores the binding invariant whatever happened to the rows. */
  lemma {:induction false} WithAcctKeeps(t: Tables, acct: AcctMap)
    requires Inv(t)
    requires RowsNonEmpty(acct)
    requires forall k :: k in acct ==> OwnerLive(t, k.source)
    ensures Inv(WithAcct(t, acct))
  {
  }

  lemma {:induction false} InsertAllKeys(acct: AcctMap, source: string, sourceType: string, keep: seq<Upsert>, now: int)
    ensures forall k :: k in InsertAll(acct, source, sourceType, keep, now) ==> k in acct || k.source == source
    ensures RowsNonEmpty(acct) && (forall up :: up in keep ==> HasCredential(up)) ==>
      RowsNonEmpty(InsertAll(acct, source, sourceType, keep, now))
  {
    if |keep| > 0 {
      InsertAllKeys(acct, source, sourceType, keep[..|keep| - 1], now);
      assert keep[|keep| - 1] in keep;
      assert forall up :: up in keep[..|keep| - 1] ==> up in keep;
    }
  }

  lemma {:induction false} SnapshotKeeps(t: Tables, id: int, sourceType: string, keep: seq<Upsert>, now: int)
    requires Inv(t) && forall up :: up in keep ==> HasCredential(up)
    ensures Inv(ReplaceSnapshot(t, id, sourceType, keep, now))
  {
    if id in t.sources {
      var rest := WithoutSource(t.acct, SrcName(id));
      InsertAllKeys(rest, SrcName(id), sourceType, keep, now);
      assert OwnerLive(t, SrcName(id));
      WithAcctKeeps(t, InsertAll(rest, SrcName(id), sourceType, keep, now));
    }
  }

  lemma {:induction false} WithStreakKeeps(t: Tables, id: int, streak: nat)
    requires Inv(t) && id in t.sources
    ensures Inv(WithStreak(t, id, streak))
  {
    var t' := WithStreak(t, id, streak);
    assert forall k :: k in t.acct ==> OwnerLive(t', k.source) by {
      assert t'.sources.Keys == t.sources.Keys;
    }
  }

  lemma {:induction false} GuardedKeeps(t: Tables, id: int, sourceType: string, keep: seq<Upsert>, threshold: int,
                                        now: int)
    requires Inv(t) && forall up :: up in keep ==> HasCredential(up)
    ensures Inv(GuardedSnapshot(t, id, sourceType, keep, threshold, now))
  {
    match GuardOutcome(t, id, keep, threshold) {
      case SourceGone =>
      case NothingToClear => WithStreakKeeps(t, id, 0);
      case Deferred(n) => WithStreakKeeps(t, id, n);
      case Cleared(n) =>
        WithAcctKeeps(t, WithoutSource(t.acct, SrcName(id)));
        WithStreakKeeps(WithAcct(t, WithoutSource(t.acct, SrcName(id))), id, n);
      case Replaced =>
        SnapshotKeeps(t, id, sourceType, keep, now);
        WithStreakKeeps(ReplaceSnapshot(t, id, sourceType, keep, now), id, 0);
    }
  }

  lemma {:induction false} DeltaKeeps(t: Tables, id: int, sourceType: string, up: Upsert, now: int)
    requires Inv(t)
    ensures Inv(Delta(t, id, sourceType, up, now))
  {
    if id in t.sources {
      assert OwnerLive(t, SrcName(id));
      WithAcctKeeps(t, Delta(t, id, sourceType, up, now).acct);
    }
  }

  lemma {:induction false} PushKeeps(t: Tables, platform: string, account: string, sourceType: string,
                                     up: Upsert, scan: seq<AcctKey>, now: int)
    requires Inv(t)
    ensures Inv(Push(t, platform, account, sourceType, up, scan, now))
  {
    if HasCredential(up) {
      WithAcctKeeps(t, Push(t, platform, account, sourceType, up, scan, now).acct);
    }
  }

  lemma {:induction false} ClearFpKeeps(t: Tables, platform: string, account: string, fp: string,
                                        hits: seq<AcctKey>, now: int)
    requires Inv(t) && IsHits(t.acct, hits, platform, account, fp)
    ensures Inv(ClearFp(t, platform, account, fp, hits, now))
  {
    if |hits| > 0 {
      var acct' := ClearAll(t.acct, hits, fp, now);
      if fp == "" {
        EmptyFpKeepsCredentials(t.acct, hits, now);
      } else {
        ClearKeepsNonEmpty(t.acct, hits, platform, account, fp, now);
        forall k | k in acct' ensures OwnerLive(t, k.source) {
          ClearKeepsOwners(t.acct, hits, platform, account, fp, now, k);
          assert k in t.acct || k.(rtFp := fp) in t.acct;
        }
      }
      WithAcctKeeps(t, acct');
    }
  }

  lemma {:induction false} DeleteSourceKeeps(t: Tables, id: int)
    requires Inv(t)
    ensures Inv(DeleteSource(t, id))
  {
    var t' := DeleteSource(t, id);
    WithAcctKeeps(t, WithoutSource(t.acct, SrcName(id)));
    forall k | k in t'.acct ensures OwnerLive(t', k.source) {
      if k.source != PUSH {
        var owner :| owner in t.sources && SrcName(owner) == k.source;
        assert owner in t'.sources;
      }
    }
  }

  // ---------- Changing the bindings ----------

  lemma {:induction false} BindingKeeps(t: Tables, platform: string, account: string, mode: string, ids: seq<int>,
                                        now: int)
    requires Inv(t) && forall id :: id in ids ==> IsPlain(t, id)
    ensures Inv(ReplaceBinding(t, platform, account, mode, ids, now))
  {
    var t' := ReplaceBinding(t, platform, account, mode, ids, now);
    assert forall k :: k in t'.egress ==> k in t.egress || k.egressId in ids;
  }

  lemma {:induction false} InsertAssignsKeys(before: EgressMap, rest: EgressMap, egressId: int, assign: seq<Assign>,
                                             now: int)
    ensures forall k :: k in InsertAssigns(before, rest, egressId, assign, now)
                <==> k in rest || (k.egressId == egressId
                                   && exists a :: a in assign && a.platform == k.platform && a.account == k.account)
  {
    if |assign| > 0 {
      var last, init := assign[|assign| - 1], assign[..|assign| - 1];
      InsertAssignsKeys(before, rest, egressId, init, now);
      assert assign == init + [last];
      var all := InsertAssigns(before, rest, egressId, assign, now);
      var key := EgressKey(last.platform, last.account, egressId);
      forall k
        ensures k in all <==>
          k in rest || (k.egressId == egressId
                        && exists a :: a in assign && a.platform == k.platform && a.account == k.account)
      {
        if k == key {
          assert last in assign;
        }
      }
    }
  }

  lemma {:induction false} BatchKeeps(t: Tables, egressId: int, assign: seq<Assign>, now: int)
    requires Inv(t) && IsPlain(t, egressId)
    ensures Inv(ReplaceAssigned(t, egressId, assign, now))
  {
    var rest := map k | k in t.egress && k.egressId != egressId :: t.egress[k];
    InsertAssignsKeys(t.egress, rest, egressId, assign, now);
    var t' := ReplaceAssigned(t, egressId, assign, now);
    assert forall k :: k in t'.egress ==> k in rest || k.egressId == egressId;
  }

  lemma {:induction false} SourceWriteKeeps(t: Tables, t': Tables, id: int, row: SourceRow)
    requires Inv(t) && !SourceNameTaken(t, row.name, id) && 0 < id < t'.nextSource && t.nextSource <= t'.nextSource
    requires t' == t.(sources := t.sources[id := row], nextSource := t'.nextSource)
    ensures Inv(t')
  {
    forall k | k in t.acct ensures OwnerLive(t', k.source) {
      if k.source != PUSH {
        var owner :| owner in t.sources && SrcName(owner) == k.source;
        assert owner in t'.sources;
      }
    }
    forall a, b | a in t'.sources && b in t'.sources && t'.sources[a].name == t'.sources[b].name ensures a == b {
    }
  }

  lemma {:induction false} SourceOpsKeep(t: Tables, id: int, row: SourceRow)
    requires Inv(t)
    ensures Inv(CreateSource(t, row)) && Inv(UpdateSource(t, id, row))
  {
    if !SourceNameTaken(t, row.name, -1) {
      assert !SourceNameTaken(t, row.name, t.nextSource);
      SourceWriteKeeps(t, CreateSource(t, row), t.nextSource, row.(emptyStreak := 0));
    }
    if id in t.sources && !SourceNameTaken(t, row.name, id) {
      SourceWriteKeeps(t, UpdateSource(t, id, row), id, row.(emptyStreak := t.sources[id].emptyStreak));
    }
  }

  lemma {:induction false} UpstreamWriteKeeps(t: Tables, t': Tables, id: int, row: UpstreamRow)
    requires Inv(t) && !UpstreamNameTaken(t, row.name, id) && 0 < id < t'.nextUpstream
      && t.nextUpstream <= t'.nextUpstream
    requires t' == t.(upstreams := t.upstreams[id := row], nextUpstream := t'.nextUpstream)
    requires HasBindings(t, id) ==> row.platform == PLAIN
    ensures Inv(t')
  {
    forall k | k in t'.egress ensures IsPlain(t', k.egressId) {
      assert IsPlain(t, k.egressId);
    }
    forall k | k in t.acct ensures OwnerLive(t', k.source) {
      assert OwnerLive(t, k.source);
    }
    forall a, b | a in t'.upstreams && b in t'.upstreams && t'.upstreams[a].name == t'.upstreams[b].name
        ensures a == b
    {
    }
  }

  lemma {:induction false} CreateUpstreamKeeps(t: Tables, row: UpstreamRow)
    requires Inv(t)
    ensures Inv(CreateUpstream(t, row))
  {
    if !UpstreamNameTaken(t, row.name, -1) {
      assert !UpstreamNameTaken(t, row.name, t.nextUpstream);
      UpstreamWriteKeeps(t, CreateUpstream(t, row), t.nextUpstream, row);
    }
  }

  lemma {:induction false} UpdateUpstreamKeeps(t: Tables, id: int, row: UpstreamRow)
    requires Inv(t)
    ensures Inv(UpdateUpstream(t, id, row))
  {
    if UpdateUpstream(t, id, row) != t {
      if HasBindings(t, id) {
        var k :| k in t.egress && k.egressId == id;
        assert IsPlain(t, k.egressId);
      }
      UpstreamWriteKeeps(t, UpdateUpstream(t, id, row), id, row);
    }
  }

  lemma {:induction false} DeleteUpstreamKeeps(t: Tables, id: int)
    requires Inv(t)
    ensures Inv(DeleteUpstream(t, id))
  {
    var t' := DeleteUpstream(t, id);
    forall k | k in t'.egress ensures IsPlain(t', k.egressId) {
      assert IsPlain(t, k.egressId);
    }
    forall k | k in t.acct ensures OwnerLive(t', k.source) {
      assert OwnerLive(t, k.source);
    }
  }

  // ---------- Main results ----------

  lemma {:induction false} ApplyKeeps(t: Tables, op: Op)
    requires Inv(t) && WellFormed(t, op)
    ensures Inv(Apply(t, op))
  {
    match op
    case OpCreateSource(row) => SourceOpsKeep(t, 0, row);
    case OpUpdateSource(id, row) => SourceOpsKeep(t, id, row);
    case OpDeleteSource(id) => DeleteSourceKeeps(t, id);
    case OpSnapshot(id, st, keep, threshold, now) => GuardedKeeps(t, id, st, keep, threshold, now);
    case OpReplaceSnapshot(id, st, keep, now) => SnapshotKeeps(t, id, st, keep, now);
    case OpDelta(id, st, up, now) => DeltaKeeps(t, id, st, up, now);
    case OpPush(p, a, st, up, scan, now) => PushKeeps(t, p, a, st, up, scan, now);
    case OpDeleteAccount(p, a, source) => WithAcctKeeps(t, DeleteAccount(t, p, a, source).acct);
    case OpClearFp(p, a, fp, hits, now) => ClearFpKeeps(t, p, a, fp, hits, now);
    case OpPutBinding(p, a, mode, ids, now) =>
      if PutBindingAccepted(t, p, a, mode, ids) {
        BindingKeeps(t, p, a, DefaultMode(mode), ids, now);
      }
    case OpDeleteBinding(p, a, now) => BindingKeeps(t, p, a, STICKY, [], now);
    case OpClearBindings =>
    case OpPutBatch(id, accounts, mode, now) =>
      if PutBatchAccepted(t, id, accounts, mode) {
        BatchKeeps(t, id, Dedupe(accounts, DefaultMode(mode)), now);
      }
    case OpCreateUpstream(row) => CreateUpstreamKeeps(t, row);
    case OpUpdateUpstream(id, row) => UpdateUpstreamKeeps(t, id, row);
    case OpDeleteUpstream(id) => DeleteUpstreamKeeps(t, id);
  }

  /** Every run of operations from consistent tables leaves consistent tables: no
      binding without an account row, no row of a dead source, no row without a
      credential, no bound exit that is not a live plain one. */
  lemma {:induction false} RunKeepsInv(t: Tables, ops: seq<Op>)
    requires Inv(t) && WellFormedRun(t, ops)
    ensures Inv(Run(t, ops))
  {
    if |ops| > 0 {
      var before := ops[..|ops| - 1];
      WellFormedPrefix(t, ops);
      RunKeepsInv(t, before);
      ApplyKeeps(Run(t, before), ops[|ops| - 1]);
    }
  }

  lemma EmptyStoreInv()
    ensures Inv(NO_TABLES)
  {
  }

  /** From an empty store every run keeps the invariants. */
  lemma {:induction false} RunsFromNothing(ops: seq<Op>)
    requires WellFormedRun(NO_TABLES, ops)
    ensures Inv(Run(NO_TABLES, ops))
  {
    EmptyStoreInv();
    RunKeepsInv(NO_TABLES, ops);
  }

  predicate IsSourceOp(op: Op) {
    op.OpCreateSource? || op.OpUpdateSource? || op.OpDeleteSource? || op.OpSnapshot? || op.OpReplaceSnapshot?
        || op.OpDelta?
  }

  lemma {:induction false} OthersLeaveSources(t: Tables, op: Op)
    requires !IsSourceOp(op)
    ensures Apply(t, op).sources == t.sources && Apply(t, op).nextSource == t.nextSource
  {
  }

  /** Operations never bring back a source that is gone. */
  lemma {:induction false} GoneStaysGone(t: Tables, op: Op, id: int)
    requires 0 < id < t.nextSource && id !in t.sources
    ensures id !in Apply(t, op).sources && id < Apply(t, op).nextSource
  {
    if !IsSourceOp(op) {
      OthersLeaveSources(t, op);
    }
  }

  /** Once a source is deleted no row of it ever reappears, whatever snapshot or
      delta of it is still under way. */
  lemma {:induction false} DeletedSourceOwnsNothing(t: Tables, id: int, ops: seq<Op>)
    requires Inv(t) && id in t.sources && WellFormedRun(DeleteSource(t, id), ops)
    ensures !OwnsRows(Run(DeleteSource(t, id), ops).acct, SrcName(id))
  {
    DeleteSourceKeeps(t, id);
    GoneThroughRun(DeleteSource(t, id), id, ops);
    var t' := Run(DeleteSource(t, id), ops);
    SrcNameInjective(id, id);
    forall k | k in t'.acct ensures k.source != SrcName(id) {
      if k.source != PUSH {
        var owner :| owner in t'.sources && SrcName(owner) == k.source;
        SrcNameInjective(owner, id);
      }
    }
  }

  lemma {:induction false} GoneThroughRun(t: Tables, id: int, ops: seq<Op>)
    requires Inv(t) && WellFormedRun(t, ops) && 0 < id < t.nextSource && id !in t.sources
    ensures var t' := Run(t, ops); Inv(t') && id !in t'.sources && id < t'.nextSource
  {
    if |ops| > 0 {
      var before := ops[..|ops| - 1];
      WellFormedPrefix(t, ops);
      GoneThroughRun(t, id, before);
      ApplyKeeps(Run(t, before), ops[|ops| - 1]);
      GoneStaysGone(Run(t, before), ops[|ops| - 1], id);
    }
  }

  /** The store's binding transaction by itself checks nothing about exits: it keeps
      bound exits plain exactly if the handler's check still holds when it commits. */
  lemma {:induction false} BindingNeedsPlainExits(t: Tables, platform: string, account: string, mode: string,
                                                  ids: seq<int>, now: int)
    requires Inv(t)
    ensures BoundExitsPlain(ReplaceBinding(t, platform, account, mode, ids, now))
            <==> !AcctLive(t.acct, platform, account) || forall id :: id in ids ==> IsPlain(t, id)
  {
    var t' := ReplaceBinding(t, platform, account, mode, ids, now);
    assert forall k :: k in t'.egress ==> k in t.egress || (BindingOf(k, platform, account) && k.egressId in ids);
    if AcctLive(t.acct, platform, account) {
      forall id | id in ids ensures EgressKey(platform, account, id) in t'.egress {
      }
    }
  }

  /** An input that breaks the invariant: a live account bound to an exit that does not exist. */
  lemma BindingToNothing(now: int)
    ensures var t := NO_TABLES.(acct := map[AcctKey("openai", PUSH, "a", "", "t") := AcctVal("A", "", "", 0)]);
      Inv(t) && !BoundExitsPlain(ReplaceBinding(t, "openai", "a", STICKY, [7], now))
  {
    var k := AcctKey("openai", PUSH, "a", "", "t");
    var t := NO_TABLES.(acct := map[k := AcctVal("A", "", "", 0)]);
    assert AcctLive(t.acct, "openai", "a") by { assert k in t.acct && OfAccount(k, "openai", "a"); }
    assert 7 in [7] && !IsPlain(t, 7);
    BindingNeedsPlainExits(t, "openai", "a", STICKY, [7], now);
  }
}
