/** What each transaction leaves behind, key by key: which rows it writes, which it takes
    away, and which stay as they were. */
module Effects {
  import opened Tables
  import opened StoreRuns
  import PushMerge
  import ClearFingerprint

  /** The key has the same value in both maps, or is in neither. */
  predicate SameAt<K, V(==)>(m: map<K, V>, m': map<K, V>, k: K) {
    (k in m <==> k in m') && (k in m ==> m'[k] == m[k])
  }

  ghost predicate HasRow(acct: AcctMap, platform: string, account: string) {
    exists k :: k in acct && k.platform == platform && k.account == account
  }

  /** A binding stays, unchanged, exactly if its account still has a row; none is added. */
  ghost predicate BindingsFollowRows(t: Tables, t': Tables) {
    forall e: EgressKey :: (e in t'.egress <==> e in t.egress && HasRow(t'.acct, e.platform, e.account))
                && (e in t'.egress ==> t'.egress[e] == t.egress[e])
  }

  predicate SameSources(t: Tables, t': Tables) { t'.sources == t.sources && t'.nextSource == t.nextSource }

  predicate SameExits(t: Tables, t': Tables) { t'.upstreams == t.upstreams && t'.nextUpstream == t.nextUpstream }

  // ---------- Rows of a source ----------

  /** A delta replaces the rows its source has for this one account, by one row if a credential
      was supplied and by none otherwise. */
  lemma {:induction false} DeltaEffect(t: Tables, id: int, sourceType: string, up: Upsert, now: int)
    ensures var t' := Delta(t, id, sourceType, up, now);
      if id !in t.sources then t' == t
      else
        && SameSources(t, t') && SameExits(t, t') && BindingsFollowRows(t, t')
        && (forall k: AcctKey :: !(k.source == SrcName(id) && k.platform == up.platform && k.account == up.account) ==>
              SameAt(t.acct, t'.acct, k))
        && (forall k: AcctKey :: k.source == SrcName(id) && k.platform == up.platform && k.account == up.account ==>
              (k in t'.acct
               <==> (up.atFp != "" || up.rtFp != "")
                    && k == AcctKey(up.platform, SrcName(id), up.account, up.rtFp, sourceType)))
        && (forall k :: k in t'.acct && k.source == SrcName(id) && k.platform == up.platform && k.account == up.account
              ==> t'.acct[k] == AcctVal(up.atFp, up.atHint, up.rtHint, now))
  {
  }

  /** Row k is what the account in the snapshot asks for. */
  predicate AskedBy(up: Upsert, source: string, sourceType: string, k: AcctKey) {
    k == AcctKey(up.platform, source, up.account, up.rtFp, sourceType)
  }

  /** keep[i] is the last of the snapshot that asks for row k. */
  predicate LastAsking(keep: seq<Upsert>, i: nat, source: string, sourceType: string, k: AcctKey) {
    && i < |keep| && AskedBy(keep[i], source, sourceType, k)
    && forall j :: i < j < |keep| ==> !AskedBy(keep[j], source, sourceType, k)
  }

  ghost predicate Written(keep: seq<Upsert>, source: string, sourceType: string, now: int, k: AcctKey, v: AcctVal) {
    exists i: nat :: LastAsking(keep, i, source, sourceType, k)
                     && v == AcctVal(keep[i].atFp, keep[i].atHint, keep[i].rtHint, now)
  }

  lemma {:induction false} InsertedRow(acct: AcctMap, source: string, sourceType: string, keep: seq<Upsert>, now: int,
                                       k: AcctKey)
    requires forall k: AcctKey :: k in acct ==> k.source != source
    ensures var all := InsertAll(acct, source, sourceType, keep, now);
      && (k.source != source ==> SameAt(acct, all, k))
      && (k.source == source ==>
            (k in all <==> exists up :: up in keep && AskedBy(up, source, sourceType, k))
            && (k in all ==> Written(keep, source, sourceType, now, k, all[k])))
  {
    if |keep| > 0 {
      var front, last := keep[..|keep| - 1], keep[|keep| - 1];
      InsertedRow(acct, source, sourceType, front, now, k);
      var before := InsertAll(acct, source, sourceType, front, now);
      assert keep == front + [last];
      if AskedBy(last, source, sourceType, k) {
        assert last in keep && LastAsking(keep, |keep| - 1, source, sourceType, k);
      } else if k.source == source && k in before {
        var i: nat :| LastAsking(front, i, source, sourceType, k)
                      && before[k] == AcctVal(front[i].atFp, front[i].atHint, front[i].rtHint, now);
        assert LastAsking(keep, i, source, sourceType, k) && keep[i] == front[i];
      }
    }
  }

  /** A snapshot that is taken over makes the source's rows exactly those it asks for, each with
      the values of the last account asking for it, and touches no other row. */
  lemma {:induction false} SnapshotEffect(t: Tables, id: int, sourceType: string, keep: seq<Upsert>, now: int)
    ensures var t' := ReplaceSnapshot(t, id, sourceType, keep, now);
      if id !in t.sources then t' == t
      else
        && SameSources(t, t') && SameExits(t, t') && BindingsFollowRows(t, t')
        && (forall k: AcctKey :: k.source != SrcName(id) ==> SameAt(t.acct, t'.acct, k))
        && (forall k: AcctKey :: k.source == SrcName(id) ==>
              (k in t'.acct <==> exists up :: up in keep && AskedBy(up, SrcName(id), sourceType, k)))
        && (forall k: AcctKey :: k in t'.acct && k.source == SrcName(id) ==>
              Written(keep, SrcName(id), sourceType, now, k, t'.acct[k]))
  {
    if id in t.sources {
      var others := WithoutSource(t.acct, SrcName(id));
      forall k: AcctKey ensures var all := InsertAll(others, SrcName(id), sourceType, keep, now);
        && (k.source != SrcName(id) ==> SameAt(t.acct, all, k))
        && (k.source == SrcName(id) ==>
              (k in all <==> exists up :: up in keep && AskedBy(up, SrcName(id), sourceType, k))
              && (k in all ==> Written(keep, SrcName(id), sourceType, now, k, all[k])))
      {
        InsertedRow(others, SrcName(id), sourceType, keep, now, k);
      }
    }
  }

  /** The guarded snapshot: a non-empty one is taken over, an empty one empties the source or
      changes nothing; either way only this source's streak changes beside it. */
  lemma {:induction false} GuardedEffect(t: Tables, id: int, sourceType: string, keep: seq<Upsert>, threshold: int,
                                         now: int)
    ensures var t', whole := GuardedSnapshot(t, id, sourceType, keep, threshold, now),
                             ReplaceSnapshot(t, id, sourceType, keep, now);
      && SameExits(t, t') && t'.nextSource == t.nextSource
      && (forall j :: j != id ==> SameAt(t.sources, t'.sources, j))
      && (id in t.sources <==> id in t'.sources)
      && (id in t.sources ==> t'.sources[id] == t.sources[id].(emptyStreak := t'.sources[id].emptyStreak))
      && (|keep| > 0 ==> t'.acct == whole.acct && t'.egress == whole.egress)
      && (|keep| == 0 ==> (t'.acct == t.acct && t'.egress == t.egress)
                          || (t'.acct == whole.acct && t'.egress == whole.egress))
  {
    GuardedRows(t, id, sourceType, keep, threshold, now);
  }

  lemma {:induction false} GuardedRows(t: Tables, id: int, sourceType: string, keep: seq<Upsert>, threshold: int,
                                       now: int)
    ensures var t', whole := GuardedSnapshot(t, id, sourceType, keep, threshold, now),
                             ReplaceSnapshot(t, id, sourceType, keep, now);
      if |keep| > 0 then t'.acct == whole.acct && t'.egress == whole.egress
      else (t'.acct == t.acct && t'.egress == t.egress) || (t'.acct == whole.acct && t'.egress == whole.egress)
  {
    if |keep| == 0 {
      assert InsertAll(WithoutSource(t.acct, SrcName(id)), SrcName(id), sourceType, keep, now)
          == WithoutSource(t.acct, SrcName(id));
    }
  }

  // ---------- Accounts and sources going ----------

  /** Deleting an account takes its rows, all or those of one source. */
  lemma {:induction false} DeleteAccountEffect(t: Tables, platform: string, account: string, source: string)
    ensures var t' := DeleteAccount(t, platform, account, source);
      && SameSources(t, t') && SameExits(t, t') && BindingsFollowRows(t, t')
      && forall k: AcctKey :: if k.platform == platform && k.account == account && (source == "" || k.source == source)
                     then k !in t'.acct else SameAt(t.acct, t'.acct, k)
  {
  }

  /** Deleting a source takes it and its rows. */
  lemma {:induction false} DeleteSourceEffect(t: Tables, id: int)
    ensures var t' := DeleteSource(t, id);
      && id !in t'.sources && t'.nextSource == t.nextSource && SameExits(t, t') && BindingsFollowRows(t, t')
      && (forall j :: j != id ==> SameAt(t.sources, t'.sources, j))
      && (forall k: AcctKey :: if k.source == SrcName(id) then k !in t'.acct else SameAt(t.acct, t'.acct, k))
  {
  }

  /** Creating and updating a source: the row as given apart from the streak, which starts at
      0 and is kept; refused exactly when another source has the name. */
  lemma {:induction false} WriteSourceEffect(t: Tables, id: int, row: SourceRow)
    requires IdsBelowNext(t)
    ensures var t' := CreateSource(t, row);
      if exists j :: j in t.sources && t.sources[j].name == row.name then t' == t
      else t' == t.(nextSource := t.nextSource + 1, sources := t'.sources)
           && t.nextSource in t'.sources && t'.sources[t.nextSource] == row.(emptyStreak := 0)
           && forall j :: j != t.nextSource ==> SameAt(t.sources, t'.sources, j)
    ensures var t' := UpdateSource(t, id, row);
      if id !in t.sources || exists j :: j in t.sources && j != id && t.sources[j].name == row.name then t' == t
      else t' == t.(sources := t'.sources)
           && id in t'.sources && t'.sources[id] == row.(emptyStreak := t.sources[id].emptyStreak)
           && forall j :: j != id ==> SameAt(t.sources, t'.sources, j)
  {
  }

  // ---------- Bindings of an account ----------

  /** Replacing an account's binding: if the account has a row it is bound to exactly these
      exits, otherwise to none; other accounts keep theirs as long as they have a row. */
  lemma {:induction false} BindingEffect(t: Tables, platform: string, account: string, mode: string, ids: seq<int>,
                                         now: int)
    ensures var t' := ReplaceBinding(t, platform, account, mode, ids, now);
      && t' == t.(egress := t'.egress)
      && (forall id :: EgressKey(platform, account, id) in t'.egress
            <==> HasRow(t.acct, platform, account) && id in ids)
      && (forall e: EgressKey :: e in t'.egress && e.platform == platform && e.account == account ==>
            t'.egress[e] == EgressVal(mode, now, now))
      && (forall e: EgressKey :: !(e.platform == platform && e.account == account) ==>
            if HasRow(t.acct, e.platform, e.account) then SameAt(t.egress, t'.egress, e) else e !in t'.egress)
  {
    var t' := ReplaceBinding(t, platform, account, mode, ids, now);
    var rows := BindingRows(platform, account, mode, ids, now);
    assert forall id :: EgressKey(platform, account, id) in rows <==> id in ids;
    assert HasRow(t.acct, platform, account) <==> AcctLive(t.acct, platform, account);
  }

  /** A PUT of an account's exits is accepted for both names, a known mode or none, live plain
      exits, and an account that has a row. */
  ghost predicate PutOk(t: Tables, platform: string, account: string, mode: string, ids: seq<int>) {
    && platform != "" && account != "" && mode in {"", "sticky", "random"} && HasRow(t.acct, platform, account)
    && forall id :: id in ids ==> id in t.upstreams && t.upstreams[id].platform == "plain"
  }

  /** In consistent tables every binding's account has a row. */
  lemma {:induction false} BoundHaveRows(t: Tables)
    requires BoundAccountsLive(t)
    ensures forall e :: e in t.egress ==> HasRow(t.acct, e.platform, e.account)
  {
    forall e | e in t.egress ensures HasRow(t.acct, e.platform, e.account) {
      assert AcctLive(t.acct, e.platform, e.account);
    }
  }

  lemma {:induction false} PutOkIsAccepted(t: Tables, platform: string, account: string, mode: string, ids: seq<int>)
    ensures PutOk(t, platform, account, mode, ids) <==> PutBindingAccepted(t, platform, account, mode, ids)
  {
    assert HasRow(t.acct, platform, account) <==> AcctLive(t.acct, platform, account);
  }

  /** A PUT of an account's exits leaves it bound to exactly the exits of the request, in its
      mode, and other accounts as they were; or it is refused and changes nothing. */
  lemma {:induction false} PutLeavesExactly(t: Tables, platform: string, account: string, mode: string, ids: seq<int>,
                                            now: int)
    requires Inv(t)
    ensures var t' := Apply(t, OpPutBinding(platform, account, mode, ids, now));
      if PutOk(t, platform, account, mode, ids) then
        && t' == t.(egress := t'.egress)
        && (forall id :: EgressKey(platform, account, id) in t'.egress <==> id in ids)
        && (forall e: EgressKey :: e in t'.egress && e.platform == platform && e.account == account ==>
              t'.egress[e] == EgressVal(if mode == "" then "sticky" else mode, now, now))
        && (forall e: EgressKey :: !(e.platform == platform && e.account == account) ==> SameAt(t.egress, t'.egress, e))
      else t' == t
  {
    PutOkIsAccepted(t, platform, account, mode, ids);
    if PutOk(t, platform, account, mode, ids) {
      BindingEffect(t, platform, account, if mode == "" then "sticky" else mode, ids, now);
      BoundHaveRows(t);
    }
  }

  /** A DELETE of an account's exits leaves it none, and other accounts as they were. */
  lemma {:induction false} DeleteLeavesNone(t: Tables, platform: string, account: string, now: int)
    requires Inv(t)
    ensures var t' := Apply(t, OpDeleteBinding(platform, account, now));
      && t' == t.(egress := t'.egress)
      && forall e: EgressKey :: if e.platform == platform && e.account == account then e !in t'.egress
                                else SameAt(t.egress, t'.egress, e)
  {
    BindingEffect(t, platform, account, "sticky", [], now);
    BoundHaveRows(t);
    var t' := Apply(t, OpDeleteBinding(platform, account, now));
    forall e: EgressKey ensures if e.platform == platform && e.account == account then e !in t'.egress
                                else SameAt(t.egress, t'.egress, e)
    {
      assert e == EgressKey(e.platform, e.account, e.egressId);
    }
  }

  // ---------- Accounts of an exit ----------

  /** assign[i] is the last for the account. */
  predicate LastAssigned(assign: seq<Assign>, i: nat, e: EgressKey) {
    && i < |assign| && assign[i].platform == e.platform && assign[i].account == e.account
    && forall j :: i < j < |assign| ==> !(assign[j].platform == e.platform && assign[j].account == e.account)
  }

  /** The mode an assignment gets: the one the account had on this exit, or the requested one;
      sticky instead of an invalid one. */
  predicate ModeKept(before: EgressMap, e: EgressKey, requested: string, mode: string) {
    var wanted := if e in before && before[e].mode != "" then before[e].mode else requested;
    mode == if wanted == "sticky" || wanted == "random" then wanted else "sticky"
  }

  ghost predicate Assigned(before: EgressMap, assign: seq<Assign>, now: int, e: EgressKey, v: EgressVal) {
    exists i: nat ::
      LastAssigned(assign, i, e) && ModeKept(before, e, assign[i].mode, v.mode) && v == EgressVal(v.mode, now, now)
  }

  lemma {:induction false} AssignedRow(before: EgressMap, rest: EgressMap, egressId: int, assign: seq<Assign>, now: int,
                                       e: EgressKey)
    requires forall k :: k in rest ==> k.egressId != egressId
    ensures var all := InsertAssigns(before, rest, egressId, assign, now);
      && (e.egressId != egressId ==> SameAt(rest, all, e))
      && (e.egressId == egressId ==>
            (e in all <==> exists a :: a in assign && a.platform == e.platform && a.account == e.account)
            && (e in all ==> Assigned(before, assign, now, e, all[e])))
  {
    if |assign| > 0 {
      var front, last := assign[..|assign| - 1], assign[|assign| - 1];
      AssignedRow(before, rest, egressId, front, now, e);
      var all0, all := InsertAssigns(before, rest, egressId, front, now),
                       InsertAssigns(before, rest, egressId, assign, now);
      assert assign == front + [last];
      if e == EgressKey(last.platform, last.account, egressId) {
        assert last in assign && LastAssigned(assign, |assign| - 1, e);
        assert ModeKept(before, e, assign[|assign| - 1].mode, all[e].mode);
      } else if e.egressId == egressId && e in all0 {
        var i: nat :| LastAssigned(front, i, e) && all0[e] == EgressVal(all0[e].mode, now, now)
                      && ModeKept(before, e, front[i].mode, all0[e].mode);
        assert LastAssigned(assign, i, e) && assign[i] == front[i] && all[e] == all0[e];
      }
    }
  }

  /** Replacing an exit's accounts: the exit is bound by exactly the assigned accounts that have
      a row, each in the mode it had there or else the requested one; other exits' bindings
      stay as long as their accounts have a row. */
  lemma {:induction false} AssignEffect(t: Tables, egressId: int, assign: seq<Assign>, now: int)
    ensures var t' := ReplaceAssigned(t, egressId, assign, now);
      && t' == t.(egress := t'.egress)
      && (forall e: EgressKey :: e.egressId != egressId ==>
            if HasRow(t.acct, e.platform, e.account) then SameAt(t.egress, t'.egress, e) else e !in t'.egress)
      && (forall e: EgressKey :: e.egressId == egressId ==>
            (e in t'.egress
             <==> HasRow(t.acct, e.platform, e.account)
                  && exists a :: a in assign && a.platform == e.platform && a.account == e.account))
      && (forall e: EgressKey :: e in t'.egress && e.egressId == egressId ==>
            Assigned(t.egress, assign, now, e, t'.egress[e]))
  {
    var rest := map k | k in t.egress && k.egressId != egressId :: t.egress[k];
    var all := InsertAssigns(t.egress, rest, egressId, assign, now);
    var t' := ReplaceAssigned(t, egressId, assign, now);
    assert t'.egress == Gc(t.acct, all);
    forall e: EgressKey ensures e in t'.egress <==> e in all && HasRow(t.acct, e.platform, e.account) {
      assert AcctLive(t.acct, e.platform, e.account) <==> HasRow(t.acct, e.platform, e.account);
    }
    forall e: EgressKey ensures
        && (e.egressId != egressId ==> SameAt(t.egress, all, e))
        && (e.egressId == egressId ==>
              (e in all <==> exists a :: a in assign && a.platform == e.platform && a.account == e.account)
              && (e in all ==> Assigned(t.egress, assign, now, e, all[e])))
    {
      AssignedRow(t.egress, rest, egressId, assign, now, e);
    }
  }

  ghost predicate BatchOk(t: Tables, egressId: int, accounts: seq<(string, string)>, mode: string) {
    && mode in {"", "sticky", "random"} && egressId in t.upstreams && t.upstreams[egressId].platform == "plain"
    && forall a :: a in accounts ==> a.0 != "" && a.1 != "" && HasRow(t.acct, a.0, a.1)
  }

  lemma {:induction false} BatchOkIsAccepted(t: Tables, egressId: int, accounts: seq<(string, string)>, mode: string)
    ensures BatchOk(t, egressId, accounts, mode) <==> PutBatchAccepted(t, egressId, accounts, mode)
  {
    forall a | a in accounts ensures HasRow(t.acct, a.0, a.1) <==> AcctLive(t.acct, a.0, a.1) {
    }
  }

  lemma {:induction false} DedupeKeeps(accounts: seq<(string, string)>, mode: string)
    ensures forall a :: a in Dedupe(accounts, mode) <==> (a.platform, a.account) in accounts && a.mode == mode
  {
    if |accounts| > 0 {
      DedupeKeeps(accounts[..|accounts| - 1], mode);
      assert accounts == accounts[..|accounts| - 1] + [accounts[|accounts| - 1]];
    }
  }

  lemma {:induction false} AssignedInMode(before: EgressMap, assign: seq<Assign>, now: int, e: EgressKey, v: EgressVal,
                                          mode: string)
    requires Assigned(before, assign, now, e, v) && forall a :: a in assign ==> a.mode == mode
    ensures ModeKept(before, e, mode, v.mode) && v == EgressVal(v.mode, now, now)
  {
    var i: nat :| LastAssigned(assign, i, e) && ModeKept(before, e, assign[i].mode, v.mode)
                  && v == EgressVal(v.mode, now, now);
    assert assign[i] in assign;
  }

  /** One binding of the exit after its accounts were replaced. */
  lemma {:induction false} BatchEntry(t: Tables, egressId: int, accounts: seq<(string, string)>, wanted: string,
                                      now: int, e: EgressKey)
    requires e.egressId == egressId && forall a :: a in accounts ==> HasRow(t.acct, a.0, a.1)
    ensures var egress' := ReplaceAssigned(t, egressId, Dedupe(accounts, wanted), now).egress;
      && (e in egress' <==> (e.platform, e.account) in accounts)
      && (e in egress' ==> egress'[e] == EgressVal(egress'[e].mode, now, now))
      && (e in egress' ==> ModeKept(t.egress, e, wanted, egress'[e].mode))
  {
    var assign := Dedupe(accounts, wanted);
    var egress' := ReplaceAssigned(t, egressId, assign, now).egress;
    DedupeKeeps(accounts, wanted);
    AssignEffect(t, egressId, assign, now);
    if (e.platform, e.account) in accounts {
      assert Assign(e.platform, e.account, wanted) in assign;
    }
    if e in egress' {
      AssignedInMode(t.egress, assign, now, e, egress'[e], wanted);
    }
  }

  /** A PUT of an exit's accounts leaves it bound by exactly the accounts of the request, old
      ones in the mode they had there and new ones in the requested mode, and other exits'
      bindings as they were; or it is refused and changes nothing. */
  lemma {:induction false} BatchLeavesExactly(t: Tables, egressId: int, accounts: seq<(string, string)>, mode: string,
                                              now: int)
    requires Inv(t)
    ensures var t' := Apply(t, OpPutBatch(egressId, accounts, mode, now));
      if BatchOk(t, egressId, accounts, mode) then
        && t' == t.(egress := t'.egress)
        && (forall e: EgressKey :: e.egressId != egressId ==> SameAt(t.egress, t'.egress, e))
        && (forall e: EgressKey :: e.egressId == egressId ==> (e in t'.egress <==> (e.platform, e.account) in accounts))
        && (forall e: EgressKey :: e.egressId == egressId && e in t'.egress ==>
              t'.egress[e] == EgressVal(t'.egress[e].mode, now, now)
              && ModeKept(t.egress, e, if mode == "" then "sticky" else mode, t'.egress[e].mode))
      else t' == t
  {
    BatchOkIsAccepted(t, egressId, accounts, mode);
    if BatchOk(t, egressId, accounts, mode) {
      var wanted := if mode == "" then "sticky" else mode;
      AssignEffect(t, egressId, Dedupe(accounts, wanted), now);
      BoundHaveRows(t);
      forall e: EgressKey | e.egressId == egressId
        ensures var egress' := Apply(t, OpPutBatch(egressId, accounts, mode, now)).egress;
          && (e in egress' <==> (e.platform, e.account) in accounts)
          && (e in egress' ==> egress'[e] == EgressVal(egress'[e].mode, now, now))
          && (e in egress' ==> ModeKept(t.egress, e, wanted, egress'[e].mode))
      {
        BatchEntry(t, egressId, accounts, wanted, now, e);
      }
    }
  }

  // ---------- Exits ----------

  /** Creating and updating an exit: the row as given; refused exactly when another exit has the
      name, or when a bound exit would change its platform. */
  lemma {:induction false} WriteExitEffect(t: Tables, id: int, row: UpstreamRow)
    requires IdsBelowNext(t)
    ensures var t' := CreateUpstream(t, row);
      if exists j :: j in t.upstreams && t.upstreams[j].name == row.name then t' == t
      else t' == t.(nextUpstream := t.nextUpstream + 1, upstreams := t'.upstreams)
           && t.nextUpstream in t'.upstreams && t'.upstreams[t.nextUpstream] == row
           && forall j :: j != t.nextUpstream ==> SameAt(t.upstreams, t'.upstreams, j)
    ensures var t' := UpdateUpstream(t, id, row);
      if || id !in t.upstreams
         || (exists j :: j in t.upstreams && j != id && t.upstreams[j].name == row.name)
         || (t.upstreams[id].platform != row.platform && exists e: EgressKey :: e in t.egress && e.egressId == id)
      then t' == t
      else t' == t.(upstreams := t'.upstreams) && id in t'.upstreams && t'.upstreams[id] == row
           && forall j :: j != id ==> SameAt(t.upstreams, t'.upstreams, j)
  {
  }

  /** Deleting an exit takes it and its bindings. */
  lemma {:induction false} DeleteExitEffect(t: Tables, id: int)
    ensures var t' := DeleteUpstream(t, id);
      && t'.acct == t.acct && SameSources(t, t') && t'.nextUpstream == t.nextUpstream && id !in t'.upstreams
      && (forall j :: j != id ==> SameAt(t.upstreams, t'.upstreams, j))
      && (forall e: EgressKey :: if e.egressId == id then e !in t'.egress else SameAt(t.egress, t'.egress, e))
  {
  }

  // ---------- Pushes and cleared fingerprints ----------

  /** Pushes and cleared fingerprints change rows only, and the bindings that follow them. */
  lemma {:induction false} RowsOnly(t: Tables, op: Op)
    requires Inv(t) && (op.OpPush? || op.OpClearFp?)
    ensures var t' := Apply(t, op); SameSources(t, t') && SameExits(t, t') && BindingsFollowRows(t, t')
  {
    BoundHaveRows(t);
    var t' := Apply(t, op);
    forall e: EgressKey ensures HasRow(t'.acct, e.platform, e.account) <==> AcctLive(t'.acct, e.platform, e.account) {
    }
  }
}
