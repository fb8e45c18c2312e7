/** The management handlers for bindings: they check a request against the tables
    and then run one store transaction. */
module Handlers {
  import opened Tables
  import opened StoreRuns
  import Store

  datatype Status = Done | BadRequest | NotFound

  predicate NoRepeats<T(==)>(s: seq<T>) { forall i, j :: 0 <= i < j < |s| ==> s[i] != s[j] }

  /** All IDs must be plain exits; the answer has each of them once. */
  method ValidateEgressIds(upstreams: map<int, UpstreamRow>, ids: seq<int>) returns (out: seq<int>, ok: bool)
    ensures ok <==> forall id :: id in ids ==> id in upstreams && upstreams[id].platform == PLAIN
    ensures ok ==> NoRepeats(out) && forall id :: id in out <==> id in ids
  {
    out := [];
    for i := 0 to |ids|
      invariant forall id :: id in ids[..i] ==> id in upstreams && upstreams[id].platform == PLAIN
      invariant NoRepeats(out) && forall id :: id in out <==> id in ids[..i]
    {
      var id := ids[i];
      assert ids[..i + 1] == ids[..i] + [id];
      if id !in upstreams || upstreams[id].platform != PLAIN {
        return [], false;
      }
      if id in out {
        continue;
      }
      out := out + [id];
    }
    assert ids[..|ids|] == ids;
    ok := true;
  }

  /** Only the set of bound exits matters, not their order or repetition. */
  lemma {:induction false} SameIdsSameBinding(t: Tables, platform: string, account: string, mode: string,
                                              ids: seq<int>, ids': seq<int>, now: int)
    requires forall id :: id in ids <==> id in ids'
    ensures ReplaceBinding(t, platform, account, mode, ids, now)
      == ReplaceBinding(t, platform, account, mode, ids', now)
  {
    var rows, rows' := BindingRows(platform, account, mode, ids, now), BindingRows(platform, account, mode, ids', now);
    assert forall k :: k in rows <==> k in rows';
    assert rows == rows';
  }

  /** Everything but the account's existence is as it must be. */
  predicate PutBindingWellFormed(t: Tables, platform: string, account: string, mode: string, ids: seq<int>) {
    platform != "" && account != "" && ValidMode(DefaultMode(mode)) && forall id :: id in ids ==> IsPlain(t, id)
  }

  method PutAcctEgress(store: Store.Store, platform: string, account: string, mode: string, ids: seq<int>, now: int)
    returns (status: Status)
    modifies store`egress
    ensures store.T() == Apply(old(store.T()), OpPutBinding(platform, account, mode, ids, now))
    ensures status == Done <==> PutBindingAccepted(old(store.T()), platform, account, mode, ids)
    ensures status == NotFound
            <==> PutBindingWellFormed(old(store.T()), platform, account, mode, ids)
                 && !AcctLive(old(store.acct), platform, account)
  {
    if platform == "" || account == "" {
      return BadRequest;
    }
    var mode' := mode;
    if mode' == "" {
      mode' := STICKY;
    }
    if !ValidMode(mode') {
      return BadRequest;
    }
    var ids', ok := ValidateEgressIds(store.upstreams, ids);
    ghost var t := store.T();
    assert ok <==> forall id :: id in ids ==> IsPlain(t, id);
    if !ok {
      return BadRequest;
    }
    if !AcctLive(store.acct, platform, account) {
      return NotFound;
    }
    store.ReplaceAccountBinding(platform, account, mode', ids', now);
    SameIdsSameBinding(t, platform, account, mode', ids, ids', now);
    return Done;
  }

  /** The accounts of a request without a row, each once, in order of first mention. */
  function Unknown(acct: AcctMap, accounts: seq<(string, string)>): seq<(string, string)> {
    if |accounts| == 0 then []
    else
      var last, rest := accounts[|accounts| - 1], accounts[..|accounts| - 1];
      if last in rest || AcctLive(acct, last.0, last.1) then Unknown(acct, rest) else Unknown(acct, rest) + [last]
  }

  lemma {:induction false} UnknownAll(acct: AcctMap, accounts: seq<(string, string)>)
    ensures forall a :: a in Unknown(acct, accounts) <==> a in accounts && !AcctLive(acct, a.0, a.1)
    ensures NoRepeats(Unknown(acct, accounts))
  {
    if |accounts| > 0 {
      var last, rest := accounts[|accounts| - 1], accounts[..|accounts| - 1];
      UnknownAll(acct, rest);
      assert accounts == rest + [last];
    }
  }

  predicate Named(a: (string, string)) { a.0 != "" && a.1 != "" }

  /** Refused as malformed: the mode, the kind of the exit, or an account without both names. */
  predicate BadBatch(t: Tables, egressId: int, accounts: seq<(string, string)>, mode: string) {
    || !ValidMode(DefaultMode(mode))
    || (egressId in t.upstreams && (!IsPlain(t, egressId) || exists a :: a in accounts && !Named(a)))
  }

  lemma {:induction false} DedupeAll(accounts: seq<(string, string)>, mode: string)
    ensures forall a: (string, string) :: Assign(a.0, a.1, mode) in Dedupe(accounts, mode) <==> a in accounts
    ensures NoRepeats(Dedupe(accounts, mode))
  {
    if |accounts| > 0 {
      var last, rest := accounts[|accounts| - 1], accounts[..|accounts| - 1];
      DedupeAll(rest, mode);
      assert accounts == rest + [last];
      forall a: (string, string) ensures Assign(a.0, a.1, mode) in Dedupe(accounts, mode) <==> a in accounts {
        assert Assign(a.0, a.1, mode) == Assign(last.0, last.1, mode) ==> a == last;
      }
    }
  }

  /** The whole request or nothing: one unknown account and no binding changes; the answer
      then lists all unknown ones. */
  method PutAcctEgressBatch(store: Store.Store, egressId: int, accounts: seq<(string, string)>, mode: string, now: int)
    returns (status: Status, missing: seq<(string, string)>)
    modifies store`egress
    ensures store.T() == Apply(old(store.T()), OpPutBatch(egressId, accounts, mode, now))
    ensures status == Done <==> PutBatchAccepted(old(store.T()), egressId, accounts, mode)
    ensures status == BadRequest <==> BadBatch(old(store.T()), egressId, accounts, mode)
    ensures missing == if status == NotFound && egressId in old(store.upstreams)
                       then Unknown(old(store.acct), accounts) else []
    ensures forall a :: a in missing ==> a in accounts && !AcctLive(old(store.acct), a.0, a.1)
    ensures status == NotFound && egressId in old(store.upstreams) ==>
      NoRepeats(missing) && forall a :: a in accounts && !AcctLive(old(store.acct), a.0, a.1) ==> a in missing
  {
    missing := [];
    var mode' := mode;
    if mode' == "" {
      mode' := STICKY;
    }
    if !ValidMode(mode') {
      return BadRequest, [];
    }
    if egressId !in store.upstreams {
      return NotFound, [];
    }
    if store.upstreams[egressId].platform != PLAIN {
      return BadRequest, [];
    }
    var assign: seq<Assign> := [];
    var seen: set<(string, string)> := {};
    for i := 0 to |accounts|
      invariant store.T() == old(store.T())
      invariant forall a :: a in seen <==> a in accounts[..i]
      invariant forall a :: a in accounts[..i] ==> Named(a)
      invariant missing == Unknown(store.acct, accounts[..i])
      invariant missing == [] ==> assign == Dedupe(accounts[..i], mode')
    {
      var a := accounts[i];
      assert accounts[..i + 1] == accounts[..i] + [a];
      assert accounts[..i + 1][..i] == accounts[..i];
      assert a in accounts;
      if a.0 == "" || a.1 == "" {
        return BadRequest, [];
      }
      if a in seen {
        continue;
      }
      seen := seen + {a};
      if !AcctLive(store.acct, a.0, a.1) {
        missing := missing + [a];
        continue;
      }
      assign := assign + [Assign(a.0, a.1, mode')];
    }
    assert accounts[..|accounts|] == accounts;
    UnknownAll(store.acct, accounts);
    if missing != [] {
      assert missing[0] in missing;
      return NotFound, missing;
    }
    store.ReplaceEgressAccounts(egressId, assign, now);
    return Done, [];
  }
}
