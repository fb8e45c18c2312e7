/** Clearing one credential fingerprint of an account.  Clearing a refresh token
    empties a part of the primary key, so the row may run into another one; the
    rows are processed in whatever order the query returned them. */
module ClearFingerprint {
  import opened Tables
  import Text

  predicate Matches(acct: AcctMap, k: AcctKey, fp: string) {
    k in acct && (acct[k].atFp == fp || k.rtFp == fp)
  }

  /** The query's answer: each matching row of the account once, in any order. */
  ghost predicate IsHits(acct: AcctMap, hits: seq<AcctKey>, platform: string, account: string, fp: string) {
    && (forall i, j :: 0 <= i < j < |hits| ==> hits[i] != hits[j])
    && (forall k :: k in hits <==> OfAccount(k, platform, account) && Matches(acct, k, fp))
  }

  /** The key a row has once its refresh token is gone. */
  function EmptyRt(k: AcctKey): AcctKey { k.(rtFp := "") }

  /** One row of the loop; `v` is the row as the query saw it. */
  function ClearOne(acct: AcctMap, k: AcctKey, v: AcctVal, fp: string, now: int): AcctMap {
    var at := if v.atFp == fp then "" else v.atFp;
    var rt := if v.atFp == fp then k.rtFp else "";
    if at == "" && rt == "" then acct - {k}
    else if rt == "" then
      var rest := acct - {k};
      var e := EmptyRt(k);
      // On a key conflict the moved access token, which is never empty here, wins.
      rest[e := AcctVal(at, if v.atHint == "" && e in rest then rest[e].atHint else v.atHint, "", now)]
    else if k in acct then acct[k := acct[k].(atFp := "", atHint := "", updatedAt := now)]
    else acct
  }

  function ClearAll(acct: AcctMap, hits: seq<AcctKey>, fp: string, now: int): AcctMap
    requires forall k :: k in hits ==> k in acct
  {
    if |hits| == 0 then acct
    else
      var k := hits[|hits| - 1];
      ClearOne(ClearAll(acct, hits[..|hits| - 1], fp, now), k, acct[k], fp, now)
  }

  /** ClearAcctMapFp.  Rows that are not there are not visited. */
  function ClearFp(t: Tables, platform: string, account: string, fp: string, hits: seq<AcctKey>, now: int): Tables {
    if |hits| == 0 || exists k :: k in hits && k !in t.acct then t
    else WithAcct(t, ClearAll(t.acct, hits, fp, now))
  }

  // ---------- Row by row ----------

  function Cleared(v: AcctVal, now: int): AcctVal { v.(atFp := "", atHint := "", updatedAt := now) }

  /** k is a row whose refresh token is cleared while its access token lives on. */
  predicate Moves(acct: AcctMap, k: AcctKey, fp: string) {
    k in acct && k.rtFp == fp && acct[k].atFp != fp && acct[k].atFp != ""
  }

  ghost predicate Before(hits: seq<AcctKey>, a: AcctKey, b: AcctKey) {
    exists i, j :: 0 <= i < j < |hits| && hits[i] == a && hits[j] == b
  }

  /** What has become of the row with key k once the hits are processed. */
  ghost function Fate(acct: AcctMap, hits: seq<AcctKey>, fp: string, now: int, k: AcctKey): Text.Option<AcctVal>
    requires forall h :: h in hits ==> h in acct
  {
    if k.rtFp != "" then
      if k !in hits then if k in acct then Text.Some(acct[k]) else Text.None
      else if acct[k].atFp == fp then Text.Some(Cleared(acct[k], now))
      else Text.None
    else
      var m := k.(rtFp := fp);
      var moved := m in hits && Moves(acct, m, fp);
      if !moved then
        if k in acct && k !in hits then Text.Some(acct[k]) else Text.None
      else if k in hits then
        if Before(hits, k, m) then Text.Some(AcctVal(acct[m].atFp, acct[m].atHint, "", now)) else Text.None
      else
        Text.Some(AcctVal(acct[m].atFp,
                          if acct[m].atHint != "" || k !in acct then acct[m].atHint else acct[k].atHint, "", now))
  }

  function Get(acct: AcctMap, k: AcctKey): Text.Option<AcctVal> {
    if k in acct then Text.Some(acct[k]) else Text.None
  }

  lemma {:induction false} BeforeSnoc(hits: seq<AcctKey>, a: AcctKey, b: AcctKey)
    requires |hits| > 0 && a != b
    requires forall i, j :: 0 <= i < j < |hits| ==> hits[i] != hits[j]
    ensures var rest, h := hits[..|hits| - 1], hits[|hits| - 1];
      Before(hits, a, b) <==> Before(rest, a, b) || (h == b && a in rest)
  {
    var rest, h := hits[..|hits| - 1], hits[|hits| - 1];
    if Before(hits, a, b) {
      var i, j :| 0 <= i < j < |hits| && hits[i] == a && hits[j] == b;
      assert rest[i] == a;
      assert j < |rest| ==> rest[j] == b;
    }
    if Before(rest, a, b) {
      var i, j :| 0 <= i < j < |rest| && rest[i] == a && rest[j] == b;
      assert hits[i] == a && hits[j] == b;
    }
    if h == b && a in rest {
      var i :| 0 <= i < |rest| && rest[i] == a;
      assert hits[i] == a && hits[|hits| - 1] == b;
    }
  }

  /** A row is touched only by its own hit, or by a row moving onto it. */
  lemma ClearOneElsewhere(cur: AcctMap, h: AcctKey, v: AcctVal, fp: string, now: int, k: AcctKey)
    requires k != h && !(v.atFp != fp && v.atFp != "" && k == EmptyRt(h))
    ensures Get(ClearOne(cur, h, v, fp, now), k) == Get(cur, k)
  {
  }

  lemma {:induction false} FateRtStep(acct: AcctMap, rest: seq<AcctKey>, cur: AcctMap, h: AcctKey, fp: string,
                                      now: int, k: AcctKey)
    requires fp != "" && k.rtFp != "" && h !in rest && Matches(acct, h, fp)
    requires forall x :: x in rest + [h] ==> x in acct
    requires Get(cur, k) == Fate(acct, rest, fp, now, k)
    ensures Get(ClearOne(cur, h, acct[h], fp, now), k) == Fate(acct, rest + [h], fp, now, k)
  {
    assert k in rest + [h] <==> k in rest || k == h;
    if h != k {
      ClearOneElsewhere(cur, h, acct[h], fp, now, k);
    }
  }

  lemma {:induction false} FateWithRt(acct: AcctMap, hits: seq<AcctKey>, fp: string, now: int, k: AcctKey)
    requires fp != "" && k.rtFp != ""
    requires forall i, j :: 0 <= i < j < |hits| ==> hits[i] != hits[j]
    requires forall h :: h in hits ==> h in acct && Matches(acct, h, fp)
    ensures Get(ClearAll(acct, hits, fp, now), k) == Fate(acct, hits, fp, now, k)
  {
    if |hits| > 0 {
      var rest, h := hits[..|hits| - 1], hits[|hits| - 1];
      assert hits == rest + [h] && h !in rest;
      FateWithRt(acct, rest, fp, now, k);
      FateRtStep(acct, rest, ClearAll(acct, rest, fp, now), h, fp, now, k);
    }
  }

  /** A row that holds the fingerprint as its access token and no refresh token is deleted by its own hit. */
  lemma {:induction false} FateStepSelf(acct: AcctMap, rest: seq<AcctKey>, cur: AcctMap, fp: string, now: int,
                                        k: AcctKey)
    requires fp != "" && k.rtFp == "" && k !in rest && k in acct && acct[k].atFp == fp
    requires forall h :: h in rest ==> h in acct
    ensures Get(ClearOne(cur, k, acct[k], fp, now), k) == Fate(acct, rest + [k], fp, now, k)
  {
    var m := k.(rtFp := fp);
    assert ClearOne(cur, k, acct[k], fp, now) == cur - {k};
    assert (rest + [k])[..|rest + [k]| - 1] == rest;
  }

  lemma {:induction false} FateStepMove(acct: AcctMap, rest: seq<AcctKey>, cur: AcctMap, fp: string, now: int,
                                        k: AcctKey)
    requires var m := k.(rtFp := fp); fp != "" && k.rtFp == "" && m !in rest && Moves(acct, m, fp)
    requires forall h :: h in rest ==> h in acct
    requires Get(cur, k) == Fate(acct, rest, fp, now, k)
    ensures var m := k.(rtFp := fp);
      Get(ClearOne(cur, m, acct[m], fp, now), k) == Fate(acct, rest + [m], fp, now, k)
  {
    var m := k.(rtFp := fp);
    var all := rest + [m];
    assert EmptyRt(m) == k;
    assert k in rest ==> Before(all, k, m) by {
      if k in rest {
        var i :| 0 <= i < |rest| && rest[i] == k;
        assert all[i] == k && all[|rest|] == m;
      }
    }
  }

  lemma {:induction false} FateStepOther(acct: AcctMap, rest: seq<AcctKey>, h: AcctKey, fp: string, now: int,
                                         k: AcctKey)
    requires fp != "" && k.rtFp == "" && h != k && h !in rest && !(h == k.(rtFp := fp) && Moves(acct, h, fp))
    requires forall x :: x in rest + [h] ==> x in acct
    requires forall i, j :: 0 <= i < j < |rest + [h]| ==> (rest + [h])[i] != (rest + [h])[j]
    ensures Fate(acct, rest + [h], fp, now, k) == Fate(acct, rest, fp, now, k)
  {
    var m := k.(rtFp := fp);
    BeforeSnoc(rest + [h], k, m);
    assert (rest + [h])[..|rest + [h]| - 1] == rest;
  }

  lemma {:induction false} FateWithoutRt(acct: AcctMap, hits: seq<AcctKey>, fp: string, now: int, k: AcctKey)
    requires fp != "" && k.rtFp == ""
    requires forall i, j :: 0 <= i < j < |hits| ==> hits[i] != hits[j]
    requires forall h :: h in hits ==> h in acct && Matches(acct, h, fp)
    ensures Get(ClearAll(acct, hits, fp, now), k) == Fate(acct, hits, fp, now, k)
  {
    if |hits| > 0 {
      var rest, h := hits[..|hits| - 1], hits[|hits| - 1];
      assert hits == rest + [h] && h !in rest;
      FateWithoutRt(acct, rest, fp, now, k);
      var cur := ClearAll(acct, rest, fp, now);
      if h == k {
        FateStepSelf(acct, rest, cur, fp, now, k);
      } else if h == k.(rtFp := fp) && Moves(acct, h, fp) {
        FateStepMove(acct, rest, cur, fp, now, k);
      } else {
        assert k == EmptyRt(h) ==> h == k.(rtFp := h.rtFp);
        ClearOneElsewhere(cur, h, acct[h], fp, now, k);
        FateStepOther(acct, rest, h, fp, now, k);
      }
    }
  }

  /** The loop, processed in any order, gives every row its fate. */
  lemma {:induction false} ClearAllIsFate(acct: AcctMap, hits: seq<AcctKey>, fp: string, now: int, k: AcctKey)
    requires fp != ""
    requires forall i, j :: 0 <= i < j < |hits| ==> hits[i] != hits[j]
    requires forall h :: h in hits ==> h in acct && Matches(acct, h, fp)
    ensures Get(ClearAll(acct, hits, fp, now), k) == Fate(acct, hits, fp, now, k)
  {
    if k.rtFp == "" {
      FateWithoutRt(acct, hits, fp, now, k);
    } else {
      FateWithRt(acct, hits, fp, now, k);
    }
  }

  // ---------- Main results, for every processing order ----------

  lemma {:induction false} FateOfAll(acct: AcctMap, hits: seq<AcctKey>, platform: string, account: string, fp: string,
                                     now: int, k: AcctKey)
    requires fp != "" && IsHits(acct, hits, platform, account, fp)
    ensures Get(ClearAll(acct, hits, fp, now), k) == Fate(acct, hits, fp, now, k)
    ensures k in hits <==> OfAccount(k, platform, account) && Matches(acct, k, fp)
    ensures k.(rtFp := fp) in hits <==> OfAccount(k, platform, account) && k.(rtFp := fp) in acct
  {
    ClearAllIsFate(acct, hits, fp, now, k);
  }

  /** After clearing, no row of the account has the fingerprint as access token.
      As refresh token it survives exactly on the rows that had it as both. */
  lemma {:induction false} ClearRemovesFp(acct: AcctMap, hits: seq<AcctKey>, platform: string, account: string,
                                          fp: string, now: int)
    requires fp != "" && IsHits(acct, hits, platform, account, fp)
    ensures var acct' := ClearAll(acct, hits, fp, now);
      forall k :: OfAccount(k, platform, account) ==>
        (k in acct' ==> acct'[k].atFp != fp)
        && (k in acct' && k.rtFp == fp <==> k in acct && k.rtFp == fp && acct[k].atFp == fp)
        && (k in acct' && k.rtFp == fp ==> acct'[k].atFp == "")
  {
    var acct' := ClearAll(acct, hits, fp, now);
    forall k | OfAccount(k, platform, account)
      ensures k in acct' ==> acct'[k].atFp != fp
      ensures k in acct' && k.rtFp == fp <==> k in acct && k.rtFp == fp && acct[k].atFp == fp
      ensures k in acct' && k.rtFp == fp ==> acct'[k].atFp == ""
    {
      FateOfAll(acct, hits, platform, account, fp, now, k);
    }
  }

  /** A second clearing leaves no trace of the fingerprint in the account. */
  lemma {:induction false} SecondClearRemovesAll(acct: AcctMap, hits: seq<AcctKey>, hits': seq<AcctKey>,
                                                 platform: string, account: string, fp: string, now: int, now': int)
    requires fp != "" && IsHits(acct, hits, platform, account, fp)
    requires IsHits(ClearAll(acct, hits, fp, now), hits', platform, account, fp)
    ensures var acct'' := ClearAll(ClearAll(acct, hits, fp, now), hits', fp, now');
      forall k :: k in acct'' && OfAccount(k, platform, account) ==> acct''[k].atFp != fp && k.rtFp != fp
  {
    ClearRemovesFp(acct, hits, platform, account, fp, now);
    ClearRemovesFp(ClearAll(acct, hits, fp, now), hits', platform, account, fp, now');
  }

  /** Rows of other accounts and rows that do not match stay as they are, except
      for an empty-token row that a moving row takes over; no other row appears. */
  lemma {:induction false} ClearKeepsOthers(acct: AcctMap, hits: seq<AcctKey>, platform: string, account: string,
                                            fp: string, now: int)
    requires fp != "" && IsHits(acct, hits, platform, account, fp)
    ensures var acct' := ClearAll(acct, hits, fp, now);
      forall k :: !(OfAccount(k, platform, account) && Matches(acct, k, fp))
                  && !(OfAccount(k, platform, account) && k.rtFp == "" && Moves(acct, k.(rtFp := fp), fp))
        ==> Get(acct', k) == Get(acct, k)
  {
    var acct' := ClearAll(acct, hits, fp, now);
    forall k | !(OfAccount(k, platform, account) && Matches(acct, k, fp))
               && !(OfAccount(k, platform, account) && k.rtFp == "" && Moves(acct, k.(rtFp := fp), fp))
      ensures Get(acct', k) == Get(acct, k)
    {
      FateOfAll(acct, hits, platform, account, fp, now, k);
    }
  }

  /** The access token of a moving row lives on in the empty-token row of its source
      and type, exactly unless that row matched itself and was processed later. */
  lemma {:induction false} MovedTokenSurvives(acct: AcctMap, hits: seq<AcctKey>, platform: string, account: string,
                                              fp: string, now: int, m: AcctKey)
    requires fp != "" && IsHits(acct, hits, platform, account, fp)
    requires OfAccount(m, platform, account) && Moves(acct, m, fp)
    ensures var acct' := ClearAll(acct, hits, fp, now);
      var e := EmptyRt(m);
      (e in acct' && acct'[e].atFp == acct[m].atFp)
      <==> !(e in acct && acct[e].atFp == fp) || Before(hits, e, m)
  {
    var e := EmptyRt(m);
    assert e.(rtFp := fp) == m;
    FateOfAll(acct, hits, platform, account, fp, now, e);
  }

  /** No row loses both credentials and stays. */
  lemma {:induction false} ClearKeepsNonEmpty(acct: AcctMap, hits: seq<AcctKey>, platform: string, account: string,
                                              fp: string, now: int)
    requires fp != "" && IsHits(acct, hits, platform, account, fp) && RowsNonEmpty(acct)
    ensures RowsNonEmpty(ClearAll(acct, hits, fp, now))
  {
    var acct' := ClearAll(acct, hits, fp, now);
    forall k | k in acct' ensures k.rtFp != "" || acct'[k].atFp != "" {
      FateOfAll(acct, hits, platform, account, fp, now, k);
    }
  }

  /** Clearing keeps a row's owner: every row afterwards has the source of a row before. */
  lemma {:induction false} ClearKeepsOwners(acct: AcctMap, hits: seq<AcctKey>, platform: string, account: string,
                                            fp: string, now: int, k: AcctKey)
    requires fp != "" && IsHits(acct, hits, platform, account, fp)
    requires k in ClearAll(acct, hits, fp, now)
    ensures k in acct || (k.rtFp == "" && k.(rtFp := fp) in acct)
  {
    FateOfAll(acct, hits, platform, account, fp, now, k);
  }

  // ---------- The empty fingerprint ----------

  /** Clearing the empty fingerprint, which matches every row that lacks a credential, moves no
      row and loses no credential. */
  lemma {:induction false} EmptyFpKeepsCredentials(acct: AcctMap, hits: seq<AcctKey>, now: int)
    requires RowsNonEmpty(acct) && forall h :: h in hits ==> h in acct && Matches(acct, h, "")
    ensures var acct' := ClearAll(acct, hits, "", now);
      acct'.Keys == acct.Keys && forall k :: k in acct ==> acct'[k].atFp == acct[k].atFp
  {
    if |hits| > 0 {
      var rest, h := hits[..|hits| - 1], hits[|hits| - 1];
      EmptyFpKeepsCredentials(acct, rest, now);
      EmptyFpStep(acct, ClearAll(acct, rest, "", now), h, now);
    }
  }

  lemma {:induction false} EmptyFpStep(acct: AcctMap, cur: AcctMap, h: AcctKey, now: int)
    requires RowsNonEmpty(acct) && Matches(acct, h, "")
    requires cur.Keys == acct.Keys && forall k :: k in acct ==> cur[k].atFp == acct[k].atFp
    ensures var acct' := ClearOne(cur, h, acct[h], "", now);
      acct'.Keys == acct.Keys && forall k :: k in acct ==> acct'[k].atFp == acct[k].atFp
  {
    if h.rtFp == "" {
      assert EmptyRt(h) == h;
    }
  }

  // ---------- Which orders lose a moved token ----------

  /** The rows of a set, each once. */
  lemma {:induction false} Listed(rows: set<AcctKey>) returns (list: seq<AcctKey>)
    ensures forall i, j :: 0 <= i < j < |list| ==> list[i] != list[j]
    ensures forall k :: k in list <==> k in rows
    decreases |rows|
  {
    if rows == {} {
      list := [];
    } else {
      var k :| k in rows;
      var rest := Listed(rows - {k});
      list := rest + [k];
    }
  }

  predicate TokenSurvives(acct: AcctMap, hits: seq<AcctKey>, fp: string, now: int, m: AcctKey)
    requires m in acct && forall h :: h in hits ==> h in acct
  {
    var acct' := ClearAll(acct, hits, fp, now);
    EmptyRt(m) in acct' && acct'[EmptyRt(m)].atFp == acct[m].atFp
  }

  /** A query that returns the moving row before the row it moves onto. */
  lemma {:induction false} LosingOrder(acct: AcctMap, platform: string, account: string, fp: string, m: AcctKey)
    returns (hits: seq<AcctKey>)
    requires fp != "" && OfAccount(m, platform, account) && Moves(acct, m, fp)
    requires EmptyRt(m) in acct && acct[EmptyRt(m)].atFp == fp
    ensures IsHits(acct, hits, platform, account, fp) && !Before(hits, EmptyRt(m), m)
  {
    var e := EmptyRt(m);
    var rows := set k | k in acct && OfAccount(k, platform, account) && Matches(acct, k, fp);
    var list := Listed(rows - {m, e});
    hits := list + [m, e];
    assert forall i :: 0 <= i < |list| ==> hits[i] == list[i] && list[i] in list;
    assert m !in list && e !in list;
    assert hits[|list|] == m && hits[|list| + 1] == e;
  }

  /** Whatever order the query returns the rows in, the token survives: exactly if the row it
      moves onto does not match the fingerprint itself. */
  lemma {:induction false} SurvivesEveryOrder(acct: AcctMap, platform: string, account: string, fp: string,
                                              now: int, m: AcctKey)
    requires fp != "" && OfAccount(m, platform, account) && Moves(acct, m, fp)
    ensures (forall hits :: IsHits(acct, hits, platform, account, fp) ==> TokenSurvives(acct, hits, fp, now, m))
            <==> !(EmptyRt(m) in acct && acct[EmptyRt(m)].atFp == fp)
  {
    forall hits | IsHits(acct, hits, platform, account, fp)
      ensures TokenSurvives(acct, hits, fp, now, m)
              <==> !(EmptyRt(m) in acct && acct[EmptyRt(m)].atFp == fp) || Before(hits, EmptyRt(m), m)
    {
      MovedTokenSurvives(acct, hits, platform, account, fp, now, m);
    }
    if EmptyRt(m) in acct && acct[EmptyRt(m)].atFp == fp {
      var hits := LosingOrder(acct, platform, account, fp, m);
      assert !TokenSurvives(acct, hits, fp, now, m);
    }
  }

  /** An input that loses the token: one row has the fingerprint as refresh token and "A" as
      access token, the other has it as access token only. */
  lemma MovedTokenLost(now: int)
    ensures var m := AcctKey("openai", PUSH, "a", "F", "t");
      var e := AcctKey("openai", PUSH, "a", "", "t");
      var acct := map[m := AcctVal("A", "", "", 0), e := AcctVal("F", "", "", 0)];
      && IsHits(acct, [m, e], "openai", "a", "F") && IsHits(acct, [e, m], "openai", "a", "F")
      && !TokenSurvives(acct, [m, e], "F", now, m) && TokenSurvives(acct, [e, m], "F", now, m)
  {
    var m, e := AcctKey("openai", PUSH, "a", "F", "t"), AcctKey("openai", PUSH, "a", "", "t");
    var acct := map[m := AcctVal("A", "", "", 0), e := AcctVal("F", "", "", 0)];
    assert [m, e][0] == m && [m, e][1] == e && [e, m][0] == e && [e, m][1] == m;
    MovedTokenSurvives(acct, [m, e], "openai", "a", "F", now, m);
    MovedTokenSurvives(acct, [e, m], "openai", "a", "F", now, m);
  }
}
