/** The store: every transaction as a method that reads its rows, changes a working
    copy and commits it, proved against the functions of Tables. */
module Store {
  import opened Text
  import opened Tables
  import opened PushMerge
  import opened ClearFingerprint
  import opened Secrets

  lemma BindingRowsSnoc(kept: EgressMap, platform: string, account: string, mode: string, ids: seq<int>, id: int,
                        now: int)
    ensures kept + BindingRows(platform, account, mode, ids + [id], now)
         == (kept + BindingRows(platform, account, mode, ids, now))
              [EgressKey(platform, account, id) := EgressVal(mode, now, now)]
  {
    var more := BindingRows(platform, account, mode, ids + [id], now);
    assert EgressKey(platform, account, id) in more;
    var before := BindingRows(platform, account, mode, ids, now);
    assert forall k :: k in more <==> k in before || k == EgressKey(platform, account, id);
  }

  class Store {
    var acct: AcctMap
    var egress: EgressMap
    var sources: map<int, SourceRow>
    var nextSource: int
    var upstreams: map<int, UpstreamRow>
    var nextUpstream: int
    var secrets: SecretMap

    ghost function T(): Tables
      reads this
    {
      Tables(acct, egress, sources, nextSource, upstreams, nextUpstream)
    }

    ghost function D(): Db
      reads this
    {
      Db(T(), secrets)
    }

    constructor ()
      ensures D() == NO_DB
    {
      secrets := map[];
      acct, egress, sources, upstreams := map[], map[], map[], map[];
      nextSource, nextUpstream := 1, 1;
    }

    // ---------- Sources and their snapshots ----------

    /** Insert the accounts of a snapshot in order, replacing equal keys. */
    method InsertRows(rows: AcctMap, source: string, sourceType: string, keep: seq<Upsert>, now: int)
      returns (r: AcctMap)
      ensures r == InsertAll(rows, source, sourceType, keep, now)
    {
      r := rows;
      for i := 0 to |keep|
        invariant r == InsertAll(rows, source, sourceType, keep[..i], now)
      {
        assert keep[..i + 1][..i] == keep[..i];
        r := r[KeyFor(source, sourceType, keep[i]) := ValFor(keep[i], now)];
      }
      assert keep[..|keep|] == keep;
    }

    method ReplaceSourceSnapshot(id: int, sourceType: string, keep: seq<Upsert>, now: int) returns (error: StoreError)
      modifies this`acct, this`egress
      ensures T() == ReplaceSnapshot(old(T()), id, sourceType, keep, now)
      ensures error == if id in old(sources) then NoError else SourceMissing
    {
      if id !in sources {
        return SourceMissing;
      }
      var rows := InsertRows(WithoutSource(acct, SrcName(id)), SrcName(id), sourceType, keep, now);
      acct, egress := rows, Gc(rows, egress);
      return NoError;
    }

    method ReplaceSourceSnapshotGuarded(id: int, sourceType: string, keep: seq<Upsert>, threshold: int, now: int)
      returns (outcome: SnapshotOutcome)
      modifies this`acct, this`egress, this`sources
      ensures T() == GuardedSnapshot(old(T()), id, sourceType, keep, threshold, now)
      ensures outcome == GuardOutcome(old(T()), id, keep, threshold)
    {
      if id !in sources {
        return SourceGone;
      }
      if |keep| == 0 {
        if !OwnsRows(acct, SrcName(id)) {
          sources := sources[id := sources[id].(emptyStreak := 0)];
          return NothingToClear;
        }
        var next := sources[id].emptyStreak + 1;
        var limit := threshold;
        if limit < 1 {
          limit := 1;
        }
        if next < limit {
          sources := sources[id := sources[id].(emptyStreak := next)];
          return Deferred(next);
        }
        acct := WithoutSource(acct, SrcName(id));
        egress := Gc(acct, egress);
        sources := sources[id := sources[id].(emptyStreak := next)];
        return Cleared(next);
      }
      var rows := InsertRows(WithoutSource(acct, SrcName(id)), SrcName(id), sourceType, keep, now);
      acct, egress := rows, Gc(rows, egress);
      sources := sources[id := sources[id].(emptyStreak := 0)];
      return Replaced;
    }

    method ApplyAccountDelta(id: int, sourceType: string, up: Upsert, now: int) returns (error: StoreError)
      modifies this`acct, this`egress
      ensures T() == Delta(old(T()), id, sourceType, up, now)
      ensures error == if id in old(sources) then NoError else SourceMissing
    {
      if id !in sources {
        return SourceMissing;
      }
      var source := SrcName(id);
      var rows := map k | k in acct && !(k.source == source && OfAccount(k, up.platform, up.account)) :: acct[k];
      if up.atFp != "" || up.rtFp != "" {
        rows := rows[KeyFor(source, sourceType, up) := ValFor(up, now)];
      }
      acct, egress := rows, Gc(rows, egress);
      return NoError;
    }

    /** Store the API key and the DSN of a new source under names that must be free. */
    static method InsertSecrets(secrets: SecretMap, id: int, kind: string, apiKey: string, dsn: string)
      returns (stored: SecretMap, column: string, free: bool)
      ensures free <==> NamesFree(secrets, id, kind, apiKey, dsn)
      ensures free ==> stored == NewSecrets(secrets, id, kind, apiKey, dsn)
      ensures free ==> column == if StoresDsn(kind, dsn) then DsnName(id) else ""
    {
      stored, column := secrets, "";
      if apiKey != "" {
        if ApiKeyName(id) in stored {
          return stored, column, false;
        }
        stored := stored[ApiKeyName(id) := apiKey];
      }
      if kind == SUB2API && TrimSpace(dsn) != "" {
        column := DsnName(id);
        if column in stored {
          return stored, column, false;
        }
        stored := stored[column := dsn];
      }
      free := true;
    }

    /** The row, the API key and the DSN in one transaction. */
    method CreateSyncSource(row: SourceRow, apiKey: string, dsn: string) returns (error: StoreError, id: int)
      modifies this`sources, this`nextSource, this`secrets
      ensures D() == CreateConfig(old(D()), row, apiKey, dsn)
      ensures error == CreateError(old(D()), row, apiKey, dsn)
      ensures error == NoError ==> id == old(nextSource) && id in sources
      ensures error != NoError ==> D() == old(D())
    {
      if SourceNameTaken(Tables(acct, egress, sources, nextSource, upstreams, nextUpstream), row.name, -1) {
        return NameTaken, 0;
      }
      var stored, column, free := InsertSecrets(secrets, nextSource, row.kind, apiKey, dsn);
      if !free {
        return SecretTaken, 0;
      }
      id := nextSource;
      sources := sources[id := row.(dbSecret := column, emptyStreak := 0)];
      nextSource := nextSource + 1;
      secrets := stored;
      error := NoError;
    }

    /** Drop the DSN that is no longer named, and store what was sent. */
    static method ReplaceSecrets(secrets: SecretMap, id: int, row: SourceRow, apiKey: string, req: DsnRequest)
      returns (stored: SecretMap)
      ensures stored == UpdatedSecrets(secrets, id, row, apiKey, req)
    {
      var was, canonical := TrimSpace(row.dbSecret), DsnName(id);
      stored := secrets;
      if req.clear || row.kind != SUB2API {
        stored := stored - {canonical, was};
      } else if req.set_ && was != "" && was != canonical {
        stored := stored - {was};
      }
      if req.set_ {
        stored := stored[canonical := req.dsn];
      }
      if apiKey != "" {
        stored := stored[ApiKeyName(id) := apiKey];
      }
    }

    /** row: what the caller read, perhaps some versions ago, with its changes. */
    method UpdateSyncSource(id: int, row: SourceRow, apiKey: string, req: DsnRequest) returns (error: StoreError)
      modifies this`sources, this`secrets
      ensures D() == UpdateConfig(old(D()), id, row, apiKey, req)
      ensures error == UpdateError(old(D()), id, row, req)
      ensures error != NoError ==> D() == old(D())
    {
      if req.set_ && req.clear {
        return SetAndClear;
      }
      if req.set_ && TrimSpace(req.dsn) == "" {
        return DsnEmpty;
      }
      var column := row.dbSecret;
      if req.clear || row.kind != SUB2API {
        column := "";
      } else if req.set_ {
        column := DsnName(id);
      }
      if id in sources {
        if SourceNameTaken(Tables(acct, egress, sources, nextSource, upstreams, nextUpstream), row.name, id) {
          return NameTaken;
        }
        sources := sources[id := row.(dbSecret := column, emptyStreak := sources[id].emptyStreak)];
      }
      secrets := ReplaceSecrets(secrets, id, row, apiKey, req);
      return NoError;
    }

    method DeleteSyncSource(id: int)
      modifies this`acct, this`egress, this`sources, this`secrets
      ensures D() == DeleteConfig(old(D()), id)
    {
      var column := "";
      if id in sources {
        column := sources[id].dbSecret;
      }
      acct := WithoutSource(acct, SrcName(id));
      egress := Gc(acct, egress);
      sources := sources - {id};
      secrets := secrets - {ApiKeyName(id), DsnName(id), column};
    }

    // ---------- Accounts ----------

    /** `scan`: the account's push rows as the query returned them. */
    method ReplaceAccountSnapshot(platform: string, account: string, sourceType: string, up: Upsert,
                                  scan: seq<AcctKey>, now: int)
      modifies this`acct, this`egress
      ensures T() == Push(old(T()), platform, account, sourceType, up, scan, now)
    {
      if up.atFp == "" && up.rtFp == "" {
        return;
      }
      var currentAt, currentRt := NO_CRED, NO_CRED;
      var i := 0;
      while i < |scan|
        invariant 0 <= i <= |scan|
        invariant FirstAt(acct, scan) == if currentAt != NO_CRED then currentAt else FirstAt(acct, scan[i..])
        invariant FirstRt(acct, scan) == if currentRt != NO_CRED then currentRt else FirstRt(acct, scan[i..])
        invariant T() == old(T())
      {
        assert scan[i..][1..] == scan[i + 1..];
        if currentAt == NO_CRED {
          currentAt := AtOf(acct, scan[i]);
        }
        if currentRt == NO_CRED {
          currentRt := RtOf(acct, scan[i]);
        }
        i := i + 1;
      }
      var at, rt := (up.atFp, up.atHint), (up.rtFp, up.rtHint);
      if up.atFp == "" {
        at := currentAt;
      }
      if up.rtFp == "" {
        rt := currentRt;
      }
      // A supplied credential is not empty, so there is always a row to write.
      var rows := WithoutPushRows(acct, platform, account, sourceType);
      rows := rows[AcctKey(platform, PUSH, account, rt.0, sourceType) := AcctVal(at.0, at.1, rt.1, now)];
      acct, egress := rows, Gc(rows, egress);
    }

    method DeleteAcctMapAccount(platform: string, account: string, source: string) returns (removed: int)
      modifies this`acct, this`egress
      ensures T() == DeleteAccount(old(T()), platform, account, source)
      ensures removed == |old(acct)| - |acct|
    {
      var rows := map k | k in acct
          && !(OfAccount(k, platform, account) && (source == "" || k.source == source)) :: acct[k];
      removed := |acct| - |rows|;
      acct, egress := rows, Gc(rows, egress);
    }

    static method ClearRow(rows0: AcctMap, k: AcctKey, v: AcctVal, fp: string, now: int) returns (rows: AcctMap)
      ensures rows == ClearOne(rows0, k, v, fp, now)
    {
      rows := rows0;
      var at, rt := v.atFp, k.rtFp;
      if at == fp {
        at := "";
      } else {
        rt := "";
      }
      if at == "" && rt == "" {
        rows := rows - {k};
      } else if rt == "" {
        var hint := v.atHint;
        rows := rows - {k};
        var e := EmptyRt(k);
        if e in rows && hint == "" {
          hint := rows[e].atHint;
        }
        rows := rows[e := AcctVal(at, hint, "", now)];
      } else if k in rows {
        rows := rows[k := rows[k].(atFp := "", atHint := "", updatedAt := now)];
      }
    }

    /** Clear the fingerprint in every matching row, in the order of the query. */
    static method ClearRows(before: AcctMap, hits: seq<AcctKey>, fp: string, now: int) returns (rows: AcctMap)
      requires forall k :: k in hits ==> k in before
      ensures rows == ClearAll(before, hits, fp, now)
    {
      rows := before;
      for i := 0 to |hits|
        invariant rows == ClearAll(before, hits[..i], fp, now)
      {
        assert hits[i] in hits;
        assert hits[..i + 1][..i] == hits[..i];
        rows := ClearRow(rows, hits[i], before[hits[i]], fp, now);
      }
      assert hits[..|hits|] == hits;
    }

    /** Which column matched, and, when it is only one, whose source the rows were. */
    static method WhatMatched(before: AcctMap, hits: seq<AcctKey>, fp: string) returns (field: string, source: string)
      requires |hits| > 0 && forall k :: k in hits ==> k in before
      ensures field == if forall k :: k in hits ==> before[k].atFp == fp then "at"
                       else if forall k :: k in hits ==> before[k].atFp != fp then "rt" else "at+rt"
      ensures source == if forall k :: k in hits ==> k.source == hits[0].source then hits[0].source else ""
    {
      var seenAt, seenRt := false, false;
      source := hits[0].source;
      for i := 0 to |hits|
        invariant seenAt <==> exists k :: k in hits[..i] && before[k].atFp == fp
        invariant seenRt <==> exists k :: k in hits[..i] && before[k].atFp != fp
        invariant source == if forall k :: k in hits[..i] ==> k.source == hits[0].source then hits[0].source else ""
      {
        assert hits[i] in hits;
        assert hits[..i + 1] == hits[..i] + [hits[i]];
        if before[hits[i]].atFp == fp {
          seenAt := true;
        } else {
          seenRt := true;
        }
        if hits[i].source != source {
          source := "";
        }
      }
      assert hits[..|hits|] == hits;
      assert hits[0] in hits;
      field := if seenAt && seenRt then "at+rt" else if seenAt then "at" else "rt";
    }

    /** `hits`: the matching rows as the query returned them.  Also says which column
        matched and, when it is only one, whose source the rows were. */
    method ClearAcctMapFp(platform: string, account: string, fp: string, hits: seq<AcctKey>, now: int)
      returns (field: string, source: string, found: bool)
      requires IsHits(acct, hits, platform, account, fp)
      modifies this`acct, this`egress
      ensures T() == ClearFp(old(T()), platform, account, fp, hits, now)
      ensures found <==> exists k :: OfAccount(k, platform, account) && Matches(old(acct), k, fp)
      ensures found ==> field == if forall k :: k in hits ==> old(acct)[k].atFp == fp then "at"
                                 else if forall k :: k in hits ==> old(acct)[k].atFp != fp then "rt" else "at+rt"
      ensures found ==> source == if forall k :: k in hits ==> k.source == hits[0].source then hits[0].source else ""
    {
      if |hits| == 0 {
        assert forall k :: k !in hits;
        return "", "", false;
      }
      var rows := ClearRows(acct, hits, fp, now);
      field, source := WhatMatched(acct, hits, fp);
      found := true;
      assert hits[0] in hits;
      acct, egress := rows, Gc(rows, egress);
    }

    // ---------- Bindings ----------

    method ReplaceAccountBinding(platform: string, account: string, mode: string, ids: seq<int>, now: int)
      modifies this`egress
      ensures T() == ReplaceBinding(old(T()), platform, account, mode, ids, now)
    {
      var kept := map k | k in egress && !BindingOf(k, platform, account) :: egress[k];
      var rows := kept;
      assert kept == kept + BindingRows(platform, account, mode, [], now);
      for i := 0 to |ids|
        invariant T() == old(T())
        invariant rows == kept + BindingRows(platform, account, mode, ids[..i], now)
      {
        BindingRowsSnoc(kept, platform, account, mode, ids[..i], ids[i], now);
        assert ids[..i + 1] == ids[..i] + [ids[i]];
        rows := rows[EgressKey(platform, account, ids[i]) := EgressVal(mode, now, now)];
      }
      assert ids[..|ids|] == ids;
      egress := Gc(acct, rows);
    }

    method ClearAcctEgress() returns (removed: int)
      modifies this`egress
      ensures T() == old(T()).(egress := map[])
      ensures removed == |old(egress)|
    {
      removed := |egress|;
      egress := map[];
    }

    /** The rows an exit's assignments leave: an account that had the exit keeps its mode there. */
    static method AssignRows(before: EgressMap, rest: EgressMap, egressId: int, assign: seq<Assign>, now: int)
      returns (rows: EgressMap)
      ensures rows == InsertAssigns(before, rest, egressId, assign, now)
    {
      var prevModes := map k | k in before && k.egressId == egressId :: before[k].mode;
      rows := rest;
      for i := 0 to |assign|
        invariant rows == InsertAssigns(before, rest, egressId, assign[..i], now)
      {
        var a := assign[i];
        var k := EgressKey(a.platform, a.account, egressId);
        assert assign[..i + 1][..i] == assign[..i];
        var mode := a.mode;
        if k in prevModes && prevModes[k] != "" {
          mode := prevModes[k];
        }
        if !ValidMode(mode) {
          mode := STICKY;
        }
        rows := rows[k := EgressVal(mode, now, now)];
      }
      assert assign[..|assign|] == assign;
    }

    method ReplaceEgressAccounts(egressId: int, assign: seq<Assign>, now: int)
      modifies this`egress
      ensures T() == ReplaceAssigned(old(T()), egressId, assign, now)
    {
      var rest := map k | k in egress && k.egressId != egressId :: egress[k];
      var rows := AssignRows(egress, rest, egressId, assign, now);
      egress := Gc(acct, rows);
    }

    // ---------- Exits ----------

    method InsertUpstream(row: UpstreamRow) returns (error: StoreError)
      modifies this`upstreams, this`nextUpstream
      ensures T() == CreateUpstream(old(T()), row)
      ensures error == if UpstreamNameTaken(old(T()), row.name, -1) then NameTaken else NoError
      ensures error != NoError ==> T() == old(T())
    {
      if UpstreamNameTaken(Tables(acct, egress, sources, nextSource, upstreams, nextUpstream), row.name, -1) {
        return NameTaken;
      }
      upstreams := upstreams[nextUpstream := row];
      nextUpstream := nextUpstream + 1;
      return NoError;
    }

    method ModifyUpstream(id: int, row: UpstreamRow) returns (error: StoreError)
      modifies this`upstreams
      ensures T() == UpdateUpstream(old(T()), id, row)
      ensures error == HasBindingsError
              <==> id in old(upstreams) && old(upstreams)[id].platform != row.platform && HasBindings(old(T()), id)
      ensures error == NameTaken
              <==> id in old(upstreams) && error != HasBindingsError && UpstreamNameTaken(old(T()), row.name, id)
    {
      var t := Tables(acct, egress, sources, nextSource, upstreams, nextUpstream);
      if id !in upstreams {
        return NoError;
      }
      if upstreams[id].platform == row.platform || !HasBindings(t, id) {
        if UpstreamNameTaken(t, row.name, id) {
          return NameTaken;
        }
        upstreams := upstreams[id := row];
        return NoError;
      }
      return HasBindingsError;
    }

    method RemoveUpstream(id: int)
      modifies this`egress, this`upstreams
      ensures T() == DeleteUpstream(old(T()), id)
    {
      egress := map k | k in egress && k.egressId != id :: egress[k];
      upstreams := upstreams - {id};
    }
  }
}
