/** A push (manual channel) merged into the rows the account already has. */
module PushMerge {
  import opened Tables

  predicate IsPushRow(k: AcctKey, platform: string, account: string, sourceType: string) {
    OfAccount(k, platform, account) && k.source == PUSH && k.sourceType == sourceType
  }

  /** The query's answer: each of the account's push rows once, latest first.
      Rows of the same time may come in any order. */
  ghost predicate IsScan(acct: AcctMap, scan: seq<AcctKey>, platform: string, account: string, sourceType: string) {
    && (forall i, j :: 0 <= i < j < |scan| ==> scan[i] != scan[j])
    && (forall k :: k in scan <==> k in acct && IsPushRow(k, platform, account, sourceType))
    && (forall i, j :: 0 <= i < j < |scan| && scan[i] in acct && scan[j] in acct ==>
          acct[scan[i]].updatedAt >= acct[scan[j]].updatedAt)
  }

  /** A fingerprint with its hint. */
  type Cred = (string, string)

  const NO_CRED: Cred := ("", "")

  function AtOf(acct: AcctMap, k: AcctKey): Cred {
    if k in acct && acct[k].atFp != "" then (acct[k].atFp, acct[k].atHint) else NO_CRED
  }

  function RtOf(acct: AcctMap, k: AcctKey): Cred {
    if k in acct && k.rtFp != "" then (k.rtFp, acct[k].rtHint) else NO_CRED
  }

  /** The first non-empty credential of a scan. */
  function FirstAt(acct: AcctMap, scan: seq<AcctKey>): Cred {
    if |scan| == 0 then NO_CRED
    else if AtOf(acct, scan[0]) != NO_CRED then AtOf(acct, scan[0])
    else FirstAt(acct, scan[1..])
  }

  function FirstRt(acct: AcctMap, scan: seq<AcctKey>): Cred {
    if |scan| == 0 then NO_CRED
    else if RtOf(acct, scan[0]) != NO_CRED then RtOf(acct, scan[0])
    else FirstRt(acct, scan[1..])
  }

  function MergedAt(acct: AcctMap, up: Upsert, scan: seq<AcctKey>): Cred {
    if up.atFp != "" then (up.atFp, up.atHint) else FirstAt(acct, scan)
  }

  function MergedRt(acct: AcctMap, up: Upsert, scan: seq<AcctKey>): Cred {
    if up.rtFp != "" then (up.rtFp, up.rtHint) else FirstRt(acct, scan)
  }

  function WithoutPushRows(acct: AcctMap, platform: string, account: string, sourceType: string): AcctMap {
    map k | k in acct && !IsPushRow(k, platform, account, sourceType) :: acct[k]
  }

  /** ReplaceAccountSnapshot. */
  function Push(t: Tables, platform: string, account: string, sourceType: string, up: Upsert,
                scan: seq<AcctKey>, now: int): Tables {
    if up.atFp == "" && up.rtFp == "" then t
    else
      var at, rt := MergedAt(t.acct, up, scan), MergedRt(t.acct, up, scan);
      WithAcct(t, WithoutPushRows(t.acct, platform, account, sourceType)
                    [AcctKey(platform, PUSH, account, rt.0, sourceType) := AcctVal(at.0, at.1, rt.1, now)])
  }

  // ---------- The merge ----------

  /** A credential of some push row that no later push row can overrule. */
  ghost predicate LatestAt(acct: AcctMap, platform: string, account: string, sourceType: string, c: Cred) {
    exists k :: k in acct && IsPushRow(k, platform, account, sourceType) && AtOf(acct, k) == c != NO_CRED
      && forall k' :: k' in acct && IsPushRow(k', platform, account, sourceType) && AtOf(acct, k') != NO_CRED ==>
           acct[k'].updatedAt <= acct[k].updatedAt
  }

  ghost predicate LatestRt(acct: AcctMap, platform: string, account: string, sourceType: string, c: Cred) {
    exists k :: k in acct && IsPushRow(k, platform, account, sourceType) && RtOf(acct, k) == c != NO_CRED
      && forall k' :: k' in acct && IsPushRow(k', platform, account, sourceType) && RtOf(acct, k') != NO_CRED ==>
           acct[k'].updatedAt <= acct[k].updatedAt
  }

  lemma {:induction false} FirstAtFacts(acct: AcctMap, scan: seq<AcctKey>)
    ensures FirstAt(acct, scan) == NO_CRED ==> forall k :: k in scan ==> AtOf(acct, k) == NO_CRED
    ensures FirstAt(acct, scan) != NO_CRED ==>
      exists i :: 0 <= i < |scan| && AtOf(acct, scan[i]) == FirstAt(acct, scan)
                  && forall j :: 0 <= j < i ==> AtOf(acct, scan[j]) == NO_CRED
  {
    if |scan| > 0 {
      if AtOf(acct, scan[0]) == NO_CRED {
        FirstAtFacts(acct, scan[1..]);
        assert scan == [scan[0]] + scan[1..];
        if FirstAt(acct, scan) != NO_CRED {
          var i :| 0 <= i < |scan[1..]| && AtOf(acct, scan[1..][i]) == FirstAt(acct, scan[1..])
                   && forall j :: 0 <= j < i ==> AtOf(acct, scan[1..][j]) == NO_CRED;
          assert scan[i + 1] == scan[1..][i];
          assert forall j :: 1 <= j < i + 1 ==> scan[j] == scan[1..][j - 1];
        }
      }
    }
  }

  lemma {:induction false} FirstRtFacts(acct: AcctMap, scan: seq<AcctKey>)
    ensures FirstRt(acct, scan) == NO_CRED ==> forall k :: k in scan ==> RtOf(acct, k) == NO_CRED
    ensures FirstRt(acct, scan) != NO_CRED ==>
      exists i :: 0 <= i < |scan| && RtOf(acct, scan[i]) == FirstRt(acct, scan)
                  && forall j :: 0 <= j < i ==> RtOf(acct, scan[j]) == NO_CRED
  {
    if |scan| > 0 {
      if RtOf(acct, scan[0]) == NO_CRED {
        FirstRtFacts(acct, scan[1..]);
        assert scan == [scan[0]] + scan[1..];
        if FirstRt(acct, scan) != NO_CRED {
          var i :| 0 <= i < |scan[1..]| && RtOf(acct, scan[1..][i]) == FirstRt(acct, scan[1..])
                   && forall j :: 0 <= j < i ==> RtOf(acct, scan[1..][j]) == NO_CRED;
          assert scan[i + 1] == scan[1..][i];
          assert forall j :: 1 <= j < i + 1 ==> scan[j] == scan[1..][j - 1];
        }
      }
    }
  }

  /** The first row of a scan with a credential of its kind is the most recent one. */
  lemma {:induction false} FirstAtAtIndex(acct: AcctMap, scan: seq<AcctKey>, platform: string, account: string,
                                          sourceType: string, i: nat)
    requires IsScan(acct, scan, platform, account, sourceType) && i < |scan| && AtOf(acct, scan[i]) != NO_CRED
    requires forall j :: 0 <= j < i ==> AtOf(acct, scan[j]) == NO_CRED
    ensures LatestAt(acct, platform, account, sourceType, AtOf(acct, scan[i]))
  {
    assert scan[i] in scan;
    forall k' | k' in acct && IsPushRow(k', platform, account, sourceType) && AtOf(acct, k') != NO_CRED
      ensures acct[k'].updatedAt <= acct[scan[i]].updatedAt
    {
      assert k' in scan;
      var j :| 0 <= j < |scan| && scan[j] == k';
    }
  }

  lemma {:induction false} FirstAtIsLatest(acct: AcctMap, scan: seq<AcctKey>, platform: string, account: string,
                                           sourceType: string)
    requires IsScan(acct, scan, platform, account, sourceType)
    ensures FirstAt(acct, scan) != NO_CRED ==> LatestAt(acct, platform, account, sourceType, FirstAt(acct, scan))
  {
    FirstAtFacts(acct, scan);
    if FirstAt(acct, scan) != NO_CRED {
      var i :| 0 <= i < |scan| && AtOf(acct, scan[i]) == FirstAt(acct, scan)
               && forall j :: 0 <= j < i ==> AtOf(acct, scan[j]) == NO_CRED;
      FirstAtAtIndex(acct, scan, platform, account, sourceType, i);
    }
  }

  /** The first row of a scan with a credential of its kind is the most recent one. */
  lemma {:induction false} FirstRtAtIndex(acct: AcctMap, scan: seq<AcctKey>, platform: string, account: string,
                                          sourceType: string, i: nat)
    requires IsScan(acct, scan, platform, account, sourceType) && i < |scan| && RtOf(acct, scan[i]) != NO_CRED
    requires forall j :: 0 <= j < i ==> RtOf(acct, scan[j]) == NO_CRED
    ensures LatestRt(acct, platform, account, sourceType, RtOf(acct, scan[i]))
  {
    assert scan[i] in scan;
    forall k' | k' in acct && IsPushRow(k', platform, account, sourceType) && RtOf(acct, k') != NO_CRED
      ensures acct[k'].updatedAt <= acct[scan[i]].updatedAt
    {
      assert k' in scan;
      var j :| 0 <= j < |scan| && scan[j] == k';
    }
  }

  lemma {:induction false} FirstRtIsLatest(acct: AcctMap, scan: seq<AcctKey>, platform: string, account: string,
                                           sourceType: string)
    requires IsScan(acct, scan, platform, account, sourceType)
    ensures FirstRt(acct, scan) != NO_CRED ==> LatestRt(acct, platform, account, sourceType, FirstRt(acct, scan))
  {
    FirstRtFacts(acct, scan);
    if FirstRt(acct, scan) != NO_CRED {
      var i :| 0 <= i < |scan| && RtOf(acct, scan[i]) == FirstRt(acct, scan)
               && forall j :: 0 <= j < i ==> RtOf(acct, scan[j]) == NO_CRED;
      FirstRtAtIndex(acct, scan, platform, account, sourceType, i);
    }
  }

  /** In acct', k is the only row of the account and type; each of its credentials is the
      supplied one, or else the most recent one in acct, or none when there was none. */
  ghost predicate MergedRow(acct: AcctMap, acct': AcctMap, platform: string, account: string, sourceType: string,
                            up: Upsert, k: AcctKey) {
    && k in acct'
    && (forall k' :: k' in acct' && IsPushRow(k', platform, account, sourceType) <==> k' == k)
    && (up.atFp != "" ==> AtOf(acct', k) == (up.atFp, up.atHint))
    && (up.rtFp != "" ==> RtOf(acct', k) == (up.rtFp, up.rtHint))
    && (up.atFp == "" && AtOf(acct', k) != NO_CRED ==> LatestAt(acct, platform, account, sourceType, AtOf(acct', k)))
    && (up.rtFp == "" && RtOf(acct', k) != NO_CRED ==> LatestRt(acct, platform, account, sourceType, RtOf(acct', k)))
    && (forall k0 :: k0 in acct && IsPushRow(k0, platform, account, sourceType) ==>
          (AtOf(acct, k0) != NO_CRED ==> AtOf(acct', k) != NO_CRED)
              && (RtOf(acct, k0) != NO_CRED ==> RtOf(acct', k) != NO_CRED))
  }

  lemma {:induction false} PushMakesMergedRow(t: Tables, platform: string, account: string, sourceType: string,
                                              up: Upsert, scan: seq<AcctKey>, now: int)
    requires up.atFp != "" || up.rtFp != ""
    requires IsScan(t.acct, scan, platform, account, sourceType)
    ensures MergedRow(t.acct, Push(t, platform, account, sourceType, up, scan, now).acct,
                      platform, account, sourceType, up,
                      AcctKey(platform, PUSH, account, MergedRt(t.acct, up, scan).0, sourceType))
  {
    FirstAtFacts(t.acct, scan);
    FirstRtFacts(t.acct, scan);
    FirstAtIsLatest(t.acct, scan, platform, account, sourceType);
    FirstRtIsLatest(t.acct, scan, platform, account, sourceType);
    var at, rt := MergedAt(t.acct, up, scan), MergedRt(t.acct, up, scan);
    var acct' := Push(t, platform, account, sourceType, up, scan, now).acct;
    var k := AcctKey(platform, PUSH, account, rt.0, sourceType);
    assert k in acct' && acct'[k] == AcctVal(at.0, at.1, rt.1, now);
    assert forall k0 :: k0 in t.acct && IsPushRow(k0, platform, account, sourceType) ==> k0 in scan;
  }

  /** A push with a credential leaves one row for account and type.  Each credential
      is the supplied one, or else the most recent one of any earlier row, or none
      when no row had one; its hint travels with it.  All other rows stay. */
  lemma {:induction false} PushMerges(t: Tables, platform: string, account: string, sourceType: string,
                                      up: Upsert, scan: seq<AcctKey>, now: int)
    requires up.atFp != "" || up.rtFp != ""
    requires IsScan(t.acct, scan, platform, account, sourceType)
    ensures var acct' := Push(t, platform, account, sourceType, up, scan, now).acct;
      exists k :: MergedRow(t.acct, acct', platform, account, sourceType, up, k)
    ensures var acct' := Push(t, platform, account, sourceType, up, scan, now).acct;
      forall k :: !IsPushRow(k, platform, account, sourceType) ==>
        (k in acct' <==> k in t.acct) && (k in acct' ==> acct'[k] == t.acct[k])
  {
    PushMakesMergedRow(t, platform, account, sourceType, up, scan, now);
  }

  lemma {:induction false} FirstOfOne(acct: AcctMap, k: AcctKey)
    requires k in acct
    ensures FirstAt(acct, [k]) == AtOf(acct, k) && FirstRt(acct, [k]) == RtOf(acct, k)
  {
    var none: seq<AcctKey> := [k][1..];
    assert none == [];
    assert FirstAt(acct, none) == NO_CRED && FirstRt(acct, none) == NO_CRED;
  }

  /** Repeating a push changes nothing but the row's time. */
  lemma {:induction false} PushTwice(t: Tables, platform: string, account: string, sourceType: string,
                                     up: Upsert, scan: seq<AcctKey>, now: int, scan': seq<AcctKey>, now': int)
    requires up.atFp != "" || up.rtFp != ""
    requires IsScan(t.acct, scan, platform, account, sourceType)
    requires IsScan(Push(t, platform, account, sourceType, up, scan, now).acct, scan', platform, account, sourceType)
    ensures Push(Push(t, platform, account, sourceType, up, scan, now), platform, account, sourceType, up, scan', now')
         == Push(t, platform, account, sourceType, up, scan, now')
  {
    var at, rt := MergedAt(t.acct, up, scan), MergedRt(t.acct, up, scan);
    var t1 := Push(t, platform, account, sourceType, up, scan, now);
    var k := AcctKey(platform, PUSH, account, rt.0, sourceType);
    FirstAtFacts(t.acct, scan);
    FirstRtFacts(t.acct, scan);
    OnlyRow(t1.acct, scan', platform, account, sourceType, k);
    assert at.0 == "" ==> at == NO_CRED;
    assert rt.0 == "" ==> rt == NO_CRED;
    assert t1.acct[k] == AcctVal(at.0, at.1, rt.1, now);
    FirstOfOne(t1.acct, k);
    assert MergedAt(t1.acct, up, [k]) == at && MergedRt(t1.acct, up, [k]) == rt;
    var rest := WithoutPushRows(t.acct, platform, account, sourceType);
    assert WithoutPushRows(t1.acct, platform, account, sourceType) == rest;
    var row' := AcctVal(at.0, at.1, rt.1, now');
    SameAccountsLive(t.acct, rest[k := t1.acct[k]], rest[k := row'], t.egress);
  }

  lemma {:induction false} OnlyRow(acct: AcctMap, scan: seq<AcctKey>, platform: string, account: string,
                                   sourceType: string, k: AcctKey)
    requires IsScan(acct, scan, platform, account, sourceType)
    requires k in acct && forall k' :: k' in acct && IsPushRow(k', platform, account, sourceType) <==> k' == k
    ensures scan == [k]
  {
    assert k in scan;
    var last := |scan| - 1;
    assert scan[0] in scan && scan[last] in scan;
    assert scan[0] == k == scan[last];
  }

  /** The clean-up looks at keys only. */
  lemma {:induction false} SameAccountsLive(acct0: AcctMap, acct1: AcctMap, acct2: AcctMap, egress: EgressMap)
    requires acct1.Keys == acct2.Keys
    ensures Gc(acct2, Gc(acct1, egress)) == Gc(acct2, egress)
  {
    assert forall k :: k in acct1 <==> k in acct2;
    assert forall p, a :: AcctLive(acct1, p, a) <==> AcctLive(acct2, p, a);
  }

  /** A push never costs anyone a binding. */
  lemma {:induction false} PushKeepsBindings(t: Tables, platform: string, account: string, sourceType: string,
                                             up: Upsert, scan: seq<AcctKey>, now: int)
    requires BoundAccountsLive(t)
    ensures Push(t, platform, account, sourceType, up, scan, now).egress == t.egress
  {
    if up.atFp != "" || up.rtFp != "" {
      var acct' := Push(t, platform, account, sourceType, up, scan, now).acct;
      var row := AcctKey(platform, PUSH, account, MergedRt(t.acct, up, scan).0, sourceType);
      forall e | e in t.egress ensures AcctLive(acct', e.platform, e.account) {
        var k :| k in t.acct && OfAccount(k, e.platform, e.account);
        if IsPushRow(k, platform, account, sourceType) {
          assert row in acct' && OfAccount(row, e.platform, e.account);
        } else {
          assert k in acct';
        }
      }
    }
  }
}
