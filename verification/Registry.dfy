/** The in-process mirror of acct_map: rows by key, and one index per credential
    kind for lookups by fingerprint. */
module Registry {
  import opened Text
  import T = Tables

  /** A row as it is served; the fields that play no part in lookups are in `shown`. */
  datatype Entry = Entry(platform: string, account: string, atFp: string, rtFp: string,
                         source: string, sourceType: string, shown: T.AcctVal)

  function KeyOf(e: Entry): T.AcctKey { T.AcctKey(e.platform, e.source, e.account, e.rtFp, e.sourceType) }

  predicate Match(e: Entry, fp: string) { fp != "" && (fp == e.atFp || fp == e.rtFp) }

  // ---------- The indices of a list of entries ----------

  datatype Index = Index(rows: map<T.AcctKey, Entry>, at: map<string, T.AcctKey>, rt: map<string, T.AcctKey>)

  function AddEntry(x: Index, e: Entry): Index {
    Index(x.rows[KeyOf(e) := e],
          if e.atFp != "" then x.at[e.atFp := KeyOf(e)] else x.at,
          if e.rtFp != "" then x.rt[e.rtFp := KeyOf(e)] else x.rt)
  }

  function IndexOf(entries: seq<Entry>): Index {
    if |entries| == 0 then Index(map[], map[], map[])
    else AddEntry(IndexOf(entries[..|entries| - 1]), entries[|entries| - 1])
  }

  /** A lookup through the indices; a key without a row would be a zero entry. */
  function Find(x: Index, fp: string): Option<Entry> {
    if fp in x.at && x.at[fp] in x.rows then Some(x.rows[x.at[fp]])
    else if fp !in x.at && fp in x.rt && x.rt[fp] in x.rows then Some(x.rows[x.rt[fp]])
    else None
  }

  class Registry {
    var rows: map<T.AcctKey, Entry>
    var atIdx: map<string, T.AcctKey>
    var rtIdx: map<string, T.AcctKey>

    ghost predicate Valid()
      reads this
    {
      && (forall fp :: fp in atIdx ==> atIdx[fp] in rows)
      && (forall fp :: fp in rtIdx ==> rtIdx[fp] in rows)
    }

    function Contents(): Index
      reads this
    {
      Index(rows, atIdx, rtIdx)
    }

    constructor ()
      ensures Valid() && Contents() == IndexOf([])
    {
      rows, atIdx, rtIdx := map[], map[], map[];
    }

    method Lookup(fp: string) returns (r: Option<Entry>)
      requires Valid()
      ensures r == Find(Contents(), fp)
    {
      if fp in atIdx {
        return Some(rows[atIdx[fp]]);
      }
      if fp in rtIdx {
        return Some(rows[rtIdx[fp]]);
      }
      return None;
    }

    method Reload(entries: seq<Entry>)
      modifies this
      ensures Valid() && Contents() == IndexOf(entries)
    {
      var rows', at, rt := map[], map[], map[];
      for i := 0 to |entries|
        invariant Index(rows', at, rt) == IndexOf(entries[..i])
        invariant forall fp :: fp in at ==> at[fp] in rows'
        invariant forall fp :: fp in rt ==> rt[fp] in rows'
      {
        assert entries[..i + 1][..i] == entries[..i];
        var e := entries[i];
        var key := KeyOf(e);
        rows' := rows'[key := e];
        if e.atFp != "" {
          at := at[e.atFp := key];
        }
        if e.rtFp != "" {
          rt := rt[e.rtFp := key];
        }
      }
      assert entries[..|entries|] == entries;
      rows, atIdx, rtIdx := rows', at, rt;
    }
  }

  // ---------- A linear scan ----------

  /** The last entry with the fingerprint as its access token. */
  function LastAt(entries: seq<Entry>, fp: string): Option<Entry> {
    if |entries| == 0 then None
    else if entries[|entries| - 1].atFp == fp then Some(entries[|entries| - 1])
    else LastAt(entries[..|entries| - 1], fp)
  }

  /** The last entry with the fingerprint as its refresh token. */
  function LastRt(entries: seq<Entry>, fp: string): Option<Entry> {
    if |entries| == 0 then None
    else if entries[|entries| - 1].rtFp == fp then Some(entries[|entries| - 1])
    else LastRt(entries[..|entries| - 1], fp)
  }

  function Scan(entries: seq<Entry>, fp: string): Option<Entry> {
    if fp == "" then None else if LastAt(entries, fp).Some? then LastAt(entries, fp) else LastRt(entries, fp)
  }

  ghost predicate DistinctKeys(entries: seq<Entry>) {
    forall i, j :: 0 <= i < j < |entries| ==> KeyOf(entries[i]) != KeyOf(entries[j])
  }

  lemma {:induction false} LastAtIsLast(entries: seq<Entry>, fp: string) returns (i: int)
    ensures -1 <= i < |entries| && forall j :: i < j < |entries| ==> entries[j].atFp != fp
    ensures if i < 0 then LastAt(entries, fp) == None
            else LastAt(entries, fp) == Some(entries[i]) && entries[i].atFp == fp
  {
    if |entries| == 0 {
      i := -1;
    } else if entries[|entries| - 1].atFp == fp {
      i := |entries| - 1;
    } else {
      i := LastAtIsLast(entries[..|entries| - 1], fp);
    }
  }

  lemma {:induction false} LastRtIsLast(entries: seq<Entry>, fp: string) returns (i: int)
    ensures -1 <= i < |entries| && forall j :: i < j < |entries| ==> entries[j].rtFp != fp
    ensures if i < 0 then LastRt(entries, fp) == None
            else LastRt(entries, fp) == Some(entries[i]) && entries[i].rtFp == fp
  {
    if |entries| == 0 {
      i := -1;
    } else if entries[|entries| - 1].rtFp == fp {
      i := |entries| - 1;
    } else {
      i := LastRtIsLast(entries[..|entries| - 1], fp);
    }
  }

  // ---------- The indices agree with the scan ----------

  /** Under distinct keys every entry is the row stored under its key. */
  lemma {:induction false} RowsHoldEntries(entries: seq<Entry>, i: nat)
    requires DistinctKeys(entries) && i < |entries|
    ensures KeyOf(entries[i]) in IndexOf(entries).rows && IndexOf(entries).rows[KeyOf(entries[i])] == entries[i]
  {
    if i < |entries| - 1 {
      var front := entries[..|entries| - 1];
      assert DistinctKeys(front);
      RowsHoldEntries(front, i);
    }
  }

  /** The indices hold the key of the last entry with each fingerprint. */
  lemma {:induction false} IndicesHoldLast(entries: seq<Entry>, fp: string)
    requires fp != ""
    ensures fp in IndexOf(entries).at <==> LastAt(entries, fp).Some?
    ensures LastAt(entries, fp).Some? ==> IndexOf(entries).at[fp] == KeyOf(LastAt(entries, fp).value)
    ensures fp in IndexOf(entries).rt <==> LastRt(entries, fp).Some?
    ensures LastRt(entries, fp).Some? ==> IndexOf(entries).rt[fp] == KeyOf(LastRt(entries, fp).value)
  {
    if |entries| > 0 {
      IndicesHoldLast(entries[..|entries| - 1], fp);
    }
  }

  lemma {:induction false} EmptyNeverIndexed(entries: seq<Entry>)
    ensures "" !in IndexOf(entries).at && "" !in IndexOf(entries).rt
  {
    if |entries| > 0 {
      EmptyNeverIndexed(entries[..|entries| - 1]);
    }
  }

  /** With one entry per primary key, a lookup finds exactly what a linear scan finds. */
  lemma {:induction false} IndexAgreesWithScan(entries: seq<Entry>, fp: string)
    requires DistinctKeys(entries)
    ensures Find(IndexOf(entries), fp) == Scan(entries, fp)
  {
    if fp == "" {
      EmptyNeverIndexed(entries);
    } else {
      IndicesHoldLast(entries, fp);
      var at := LastAtIsLast(entries, fp);
      var rt := LastRtIsLast(entries, fp);
      forall i: nat | i < |entries|
        ensures KeyOf(entries[i]) in IndexOf(entries).rows && IndexOf(entries).rows[KeyOf(entries[i])] == entries[i]
      {
        RowsHoldEntries(entries, i);
      }
    }
  }

  /** Entry i matches, no later entry matches better or as well, and no earlier one better. */
  ghost predicate Preferred(entries: seq<Entry>, i: nat, fp: string)
    requires i < |entries|
  {
    && Match(entries[i], fp)
    && (entries[i].atFp != fp ==> forall j :: 0 <= j < |entries| ==> entries[j].atFp != fp)
    && (forall j :: i < j < |entries| ==> entries[j].atFp != fp && (entries[i].atFp != fp ==> entries[j].rtFp != fp))
  }

  /** A lookup hits exactly if some entry matches; what it returns matches, an access
      token match goes before every refresh token match, and later entries go first. */
  lemma {:induction false} LookupPrefersAtThenLater(entries: seq<Entry>, fp: string)
    requires DistinctKeys(entries)
    ensures var r := Find(IndexOf(entries), fp);
      && (r.Some? <==> exists i :: 0 <= i < |entries| && Match(entries[i], fp))
      && (r.Some? ==> exists i :: 0 <= i < |entries| && r == Some(entries[i]) && Preferred(entries, i, fp))
  {
    IndexAgreesWithScan(entries, fp);
    var at := LastAtIsLast(entries, fp);
    var rt := LastRtIsLast(entries, fp);
    assert forall i :: 0 <= i < |entries| ==>
        (Match(entries[i], fp) <==> fp != "" && (entries[i].atFp == fp || entries[i].rtFp == fp));
  }

  // ---------- Serving a table ----------

  /** The entries are the rows of the table, each once, in some order. */
  ghost predicate Loaded(acct: T.AcctMap, entries: seq<Entry>) {
    && DistinctKeys(entries)
    && (forall i :: 0 <= i < |entries| ==>
          KeyOf(entries[i]) in acct && entries[i].shown == acct[KeyOf(entries[i])]
              && entries[i].atFp == entries[i].shown.atFp)
    && (forall k :: k in acct ==> exists i :: 0 <= i < |entries| && KeyOf(entries[i]) == k)
  }

  predicate RowMatches(acct: T.AcctMap, k: T.AcctKey, fp: string)
    requires k in acct
  {
    fp != "" && (acct[k].atFp == fp || k.rtFp == fp)
  }

  /** After a reload from acct_map a lookup hits exactly if a row holds the fingerprint, and
      what it returns is such a row, whatever order the rows were loaded in. */
  lemma {:induction false} ReloadServesTable(acct: T.AcctMap, entries: seq<Entry>, fp: string)
    requires Loaded(acct, entries)
    ensures var r := Find(IndexOf(entries), fp);
      && (r.Some? <==> exists k :: k in acct && RowMatches(acct, k, fp))
      && (r.Some? ==> KeyOf(r.value) in acct && RowMatches(acct, KeyOf(r.value), fp))
  {
    LookupPrefersAtThenLater(entries, fp);
    var r := Find(IndexOf(entries), fp);
    if k :| k in acct && RowMatches(acct, k, fp) {
      var i :| 0 <= i < |entries| && KeyOf(entries[i]) == k;
      assert Match(entries[i], fp);
    }
  }
}
