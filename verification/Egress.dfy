/** The binding table of accounts to exits, and the choice of one exit for a bound
    account by rendezvous hashing. */
module Egress {
  import opened Text
  import T = Tables
  import opened Platforms

  // ---------- The binding table ----------

  datatype Row = Row(platform: string, account: string, egressId: int, mode: string)

  datatype Account = Account(platform: string, account: string)

  datatype Binding = Binding(egressIds: seq<int>, mode: string)

  function AccountOf(r: Row): Account { Account(r.platform, r.account) }

  /** The exit IDs of an account in row order. */
  function IdsOf(rows: seq<Row>, a: Account): seq<int> {
    if |rows| == 0 then []
    else
      var before := IdsOf(rows[..|rows| - 1], a);
      if AccountOf(rows[|rows| - 1]) == a then before + [rows[|rows| - 1].egressId] else before
  }

  /** The last mode of an account that is not empty. */
  function ModeOf(rows: seq<Row>, a: Account): string {
    if |rows| == 0 then ""
    else if AccountOf(rows[|rows| - 1]) == a && rows[|rows| - 1].mode != "" then rows[|rows| - 1].mode
    else ModeOf(rows[..|rows| - 1], a)
  }

  predicate Sorted(s: seq<int>) { forall i, j :: 0 <= i < j < |s| ==> s[i] <= s[j] }

  function Insert(x: int, s: seq<int>): seq<int> {
    if |s| == 0 || x <= s[0] then [x] + s else [s[0]] + Insert(x, s[1..])
  }

  /** The library's sort: any ordering by value is this one. */
  function SortIds(s: seq<int>): seq<int> {
    if |s| == 0 then [] else Insert(s[|s| - 1], SortIds(s[..|s| - 1]))
  }

  lemma {:induction false} InsertMultiset(x: int, s: seq<int>)
    ensures multiset(Insert(x, s)) == multiset(s) + multiset{x}
  {
    if |s| > 0 && x > s[0] {
      InsertMultiset(x, s[1..]);
      assert s == [s[0]] + s[1..];
    }
  }

  lemma {:induction false} InsertSorted(x: int, s: seq<int>)
    requires Sorted(s)
    ensures Sorted(Insert(x, s))
  {
    if |s| > 0 && x > s[0] {
      InsertSorted(x, s[1..]);
      InsertMultiset(x, s[1..]);
      var r := Insert(x, s[1..]);
      forall j | 0 <= j < |r| ensures s[0] <= r[j] {
        assert r[j] in multiset(r);
        assert r[j] == x || r[j] in s[1..];
      }
    }
  }

  lemma {:induction false} SortIsSorted(s: seq<int>)
    ensures Sorted(SortIds(s)) && multiset(SortIds(s)) == multiset(s)
  {
    if |s| > 0 {
      var front, last := s[..|s| - 1], s[|s| - 1];
      SortIsSorted(front);
      InsertSorted(last, SortIds(front));
      InsertMultiset(last, SortIds(front));
      assert multiset(s) == multiset(front) + multiset{last} by { assert s == front + [last]; }
    }
  }

  /** What the table says about an account: nothing without a row, otherwise its exits in
      increasing order and its last non-empty mode. */
  function Expected(rows: seq<Row>, a: Account): Option<Binding> {
    if IdsOf(rows, a) == [] then None else Some(Binding(SortIds(IdsOf(rows, a)), ModeOf(rows, a)))
  }

  function LookupIn(t: map<Account, Binding>, a: Account): Option<Binding> {
    if a in t then Some(t[a]) else None
  }

  /** An account's entry while the table is being filled: exits still in row order. */
  function RowOrder(rows: seq<Row>, a: Account): Option<Binding> {
    if IdsOf(rows, a) == [] then None else Some(Binding(IdsOf(rows, a), ModeOf(rows, a)))
  }

  ghost predicate Filled(t: map<Account, Binding>, rows: seq<Row>) {
    forall a: Account :: LookupIn(t, a) == RowOrder(rows, a)
  }

  method FillTable(rows: seq<Row>) returns (t: map<Account, Binding>)
    ensures Filled(t, rows)
  {
    t := map[];
    for i := 0 to |rows|
      invariant Filled(t, rows[..i])
    {
      assert rows[..i + 1][..i] == rows[..i];
      var r := rows[i];
      var k := AccountOf(r);
      ghost var was := t;
      assert LookupIn(was, k) == RowOrder(rows[..i], k);
      var b := if k in t then t[k] else Binding([], r.mode);
      ModeNeedsRow(rows[..i], k);
      b := b.(egressIds := b.egressIds + [r.egressId]);
      if r.mode != "" {
        b := b.(mode := r.mode);
      }
      t := t[k := b];
      forall a: Account ensures LookupIn(t, a) == RowOrder(rows[..i + 1], a) {
        assert LookupIn(was, a) == RowOrder(rows[..i], a);
      }
    }
    assert rows[..|rows|] == rows;
  }

  lemma {:induction false} ModeNeedsRow(rows: seq<Row>, a: Account)
    ensures IdsOf(rows, a) == [] ==> ModeOf(rows, a) == ""
  {
    if |rows| > 0 {
      ModeNeedsRow(rows[..|rows| - 1], a);
    }
  }

  /** Sort the exits of every account in place. */
  method SortAll(filled: map<Account, Binding>) returns (t: map<Account, Binding>)
    ensures t.Keys == filled.Keys
    ensures forall a :: a in filled ==> t[a] == Binding(SortIds(filled[a].egressIds), filled[a].mode)
  {
    t := filled;
    var todo := t.Keys;
    while todo != {}
      invariant t.Keys == filled.Keys && todo <= t.Keys
      invariant forall a :: a in todo ==> t[a] == filled[a]
      invariant forall a :: a in t && a !in todo ==> t[a] == Binding(SortIds(filled[a].egressIds), filled[a].mode)
      decreases |todo|
    {
      var k :| k in todo;
      t := t[k := Binding(SortIds(t[k].egressIds), t[k].mode)];
      todo := todo - {k};
    }
  }

  /** Build the table from the stored rows. */
  method NewTable(rows: seq<Row>) returns (t: map<Account, Binding>)
    ensures forall a: Account :: LookupIn(t, a) == Expected(rows, a)
  {
    var filled := FillTable(rows);
    t := SortAll(filled);
    forall a: Account ensures LookupIn(t, a) == Expected(rows, a) {
      assert LookupIn(filled, a) == RowOrder(rows, a);
    }
  }

  /** The rows come from acct_egress, each once, in some order. */
  ghost predicate Loaded(egress: T.EgressMap, rows: seq<Row>) {
    && (forall i, j :: 0 <= i < j < |rows| ==> KeyOf(rows[i]) != KeyOf(rows[j]))
    && (forall i :: 0 <= i < |rows| ==> KeyOf(rows[i]) in egress && egress[KeyOf(rows[i])].mode == rows[i].mode)
    && (forall k :: k in egress ==> exists i :: 0 <= i < |rows| && KeyOf(rows[i]) == k)
  }

  function KeyOf(r: Row): T.EgressKey { T.EgressKey(r.platform, r.account, r.egressId) }

  lemma {:induction false} IdsAreRows(rows: seq<Row>, a: Account, id: int)
    ensures id in IdsOf(rows, a) <==> exists i :: 0 <= i < |rows| && AccountOf(rows[i]) == a && rows[i].egressId == id
  {
    if |rows| > 0 {
      IdsAreRows(rows[..|rows| - 1], a, id);
    }
  }

  lemma SortKeepsMembers(s: seq<int>, x: int)
    ensures x in SortIds(s) <==> x in s
  {
    SortIsSorted(s);
    assert x in s <==> x in multiset(s);
    assert x in SortIds(s) <==> x in multiset(SortIds(s));
  }

  /** The table binds an account to exactly the exits it has a stored row for, and does not
      know an account without a row. */
  lemma {:induction false} TableServesRows(egress: T.EgressMap, rows: seq<Row>, a: Account, id: int)
    requires Loaded(egress, rows)
    ensures var b := Expected(rows, a);
      (b.Some? && id in b.value.egressIds) <==> T.EgressKey(a.platform, a.account, id) in egress
  {
    var k := T.EgressKey(a.platform, a.account, id);
    IdsAreRows(rows, a, id);
    SortKeepsMembers(IdsOf(rows, a), id);
    if i :| 0 <= i < |rows| && AccountOf(rows[i]) == a && rows[i].egressId == id {
      assert KeyOf(rows[i]) == k;
    }
    if k in egress {
      var i :| 0 <= i < |rows| && KeyOf(rows[i]) == k;
      assert AccountOf(rows[i]) == a && rows[i].egressId == id;
    }
  }

  /** When the rows of an account share one non-empty mode, that is the mode served. */
  lemma {:induction false} SharedModeServed(rows: seq<Row>, a: Account, mode: string)
    requires IdsOf(rows, a) != [] && mode != ""
    requires forall i :: 0 <= i < |rows| && AccountOf(rows[i]) == a ==> rows[i].mode == mode
    ensures ModeOf(rows, a) == mode
  {
    if AccountOf(rows[|rows| - 1]) != a {
      SharedModeServed(rows[..|rows| - 1], a, mode);
    }
  }

  /** The mode served is that of the account's last row that has one. */
  lemma {:induction false} LastModeServed(rows: seq<Row>, a: Account, i: nat)
    requires i < |rows| && AccountOf(rows[i]) == a && rows[i].mode != ""
    requires forall j :: i < j < |rows| && AccountOf(rows[j]) == a ==> rows[j].mode == ""
    ensures ModeOf(rows, a) == rows[i].mode
  {
    if i < |rows| - 1 {
      LastModeServed(rows[..|rows| - 1], a, i);
    }
  }

  // ---------- Candidates ----------

  predicate Candidate(u: Exit, ids: seq<int>) {
    u.platform == PLAIN_PLATFORM && u.enabled && u.id in ids
  }

  /** The candidates in table order. */
  function Candidates(items: seq<Exit>, ids: seq<int>): seq<Exit> {
    if |items| == 0 then []
    else
      var before := Candidates(items[..|items| - 1], ids);
      if Candidate(items[|items| - 1], ids) then before + [items[|items| - 1]] else before
  }

  lemma {:induction false} CandidatesAre(items: seq<Exit>, ids: seq<int>, u: Exit)
    ensures u in Candidates(items, ids) <==> u in items && Candidate(u, ids)
  {
    if |items| > 0 {
      CandidatesAre(items[..|items| - 1], ids, u);
      assert items == items[..|items| - 1] + [items[|items| - 1]];
    }
  }

  predicate ById(s: seq<Exit>) { forall i, j :: 0 <= i < j < |s| ==> s[i].id <= s[j].id }

  function InsertById(u: Exit, s: seq<Exit>): seq<Exit> {
    if |s| == 0 || u.id <= s[0].id then [u] + s else [s[0]] + InsertById(u, s[1..])
  }

  /** The library's sort of the candidates by ID. */
  function SortById(s: seq<Exit>): seq<Exit> {
    if |s| == 0 then [] else InsertById(s[|s| - 1], SortById(s[..|s| - 1]))
  }

  lemma {:induction false} InsertByIdMembers(u: Exit, s: seq<Exit>, x: Exit)
    ensures x in InsertById(u, s) <==> x == u || x in s
    ensures |InsertById(u, s)| == |s| + 1
  {
    if |s| > 0 && u.id > s[0].id {
      InsertByIdMembers(u, s[1..], x);
      assert s == [s[0]] + s[1..];
    }
  }

  lemma {:induction false} InsertByIdSorted(u: Exit, s: seq<Exit>)
    requires ById(s)
    ensures ById(InsertById(u, s))
  {
    if |s| > 0 && u.id > s[0].id {
      InsertByIdSorted(u, s[1..]);
      var r := InsertById(u, s[1..]);
      forall x | x in r ensures s[0].id <= x.id {
        InsertByIdMembers(u, s[1..], x);
      }
    }
  }

  lemma {:induction false} SortByIdOk(s: seq<Exit>)
    ensures ById(SortById(s)) && |SortById(s)| == |s|
    ensures forall x :: x in SortById(s) <==> x in s
  {
    if |s| > 0 {
      var front, last := s[..|s| - 1], s[|s| - 1];
      SortByIdOk(front);
      InsertByIdSorted(last, SortById(front));
      assert s == front + [last];
      InsertByIdMembers(last, SortById(front), last);
      forall x ensures x in SortById(s) <==> x in s {
        InsertByIdMembers(last, SortById(front), x);
      }
    }
  }

  // ---------- The choice ----------

  /** What the score of an exit is the hash of. */
  function ScorePreimage(salt: string, identKey: string, id: int): string {
    salt + "\0" + identKey + "\0" + Itoa(id)
  }

  /** u has a lower score than pick, or the same and no lower ID. */
  predicate LosesTo(u: Exit, pick: Exit, score: int -> nat) {
    score(u.id) < score(pick.id) || (score(u.id) == score(pick.id) && pick.id <= u.id)
  }

  /** pick has the highest score among the exits of s, and the lowest ID among those with it. */
  ghost predicate Winner(s: set<Exit>, pick: Exit, score: int -> nat) {
    pick in s && forall u :: u in s ==> LosesTo(u, pick, score)
  }

  datatype Choice = Unbound | NoneEnabled(mode: string) | Chosen(exit: Exit, mode: string)

  /** The exits an account may leave through. */
  ghost function Allowed(items: seq<Exit>, ids: seq<int>): set<Exit> {
    set u | u in items && Candidate(u, ids)
  }

  method HighestScore(cands: seq<Exit>, score: int -> nat) returns (pick: Exit)
    requires |cands| > 0 && ById(cands)
    ensures Winner((set u | u in cands), pick, score)
  {
    pick := cands[0];
    var best := score(cands[0].id);
    for i := 1 to |cands|
      invariant best == score(pick.id) && pick in cands[..i]
      invariant forall j :: 0 <= j < i ==>
        score(cands[j].id) < best || (score(cands[j].id) == best && pick.id <= cands[j].id)
    {
      var sc := score(cands[i].id);
      if sc > best {
        best, pick := sc, cands[i];
      }
    }
  }

  /** What may be chosen for a binding; in sticky mode there is no freedom. */
  ghost predicate Selects(items: seq<Exit>, binding: Option<Binding>, score: int -> nat, c: Choice) {
    if binding.None? || binding.value.egressIds == [] then c == Unbound
    else
      var Binding(ids, mode) := binding.value;
      if Allowed(items, ids) == {} then c == NoneEnabled(mode)
      else
        && c.Chosen? && c.mode == mode && c.exit in Allowed(items, ids)
        && (mode != T.RANDOM ==> Winner(Allowed(items, ids), c.exit, score))
  }

  /** The exit for a mapped identity with the given binding; `draw` is the random number. */
  method SelectBound(items: seq<Exit>, binding: Option<Binding>, score: int -> nat, draw: nat) returns (c: Choice)
    ensures Selects(items, binding, score, c)
  {
    if binding.None? || binding.value.egressIds == [] {
      return Unbound;
    }
    var Binding(ids, mode) := binding.value;
    var cands: seq<Exit> := [];
    for i := 0 to |items|
      invariant cands == Candidates(items[..i], ids)
    {
      assert items[..i + 1][..i] == items[..i];
      if items[i].platform != PLAIN_PLATFORM || !items[i].enabled {
        continue;
      }
      if items[i].id in ids {
        cands := cands + [items[i]];
      }
    }
    assert items[..|items|] == items;
    ghost var found := cands;
    cands := SortById(cands);
    SortByIdOk(found);
    forall u: Exit ensures u in cands <==> u in Allowed(items, ids) {
      CandidatesAre(items, ids, u);
    }
    assert (set u | u in cands) == Allowed(items, ids);
    if |cands| == 0 {
      return NoneEnabled(mode);
    }
    assert cands[0] in Allowed(items, ids);
    var pick := cands[draw % |cands|];
    if mode != T.RANDOM {
      pick := HighestScore(cands, score);
    }
    return Chosen(pick, mode);
  }

  // ---------- What the sticky choice depends on ----------

  ghost predicate IdsUnique(s: set<Exit>) { forall a, b :: a in s && b in s && a.id == b.id ==> a == b }

  lemma {:induction false} WinnerIsUnique(s: set<Exit>, a: Exit, b: Exit, score: int -> nat)
    requires IdsUnique(s) && Winner(s, a, score) && Winner(s, b, score)
    ensures a == b
  {
    assert a.id == b.id;
  }

  ghost predicate SameMembers<T(!new)>(s: seq<T>, s': seq<T>) { forall x :: x in s <==> x in s' }

  lemma {:induction false} IdsOrderFree(rows: seq<Row>, rows': seq<Row>, a: Account, id: int)
    requires SameMembers(rows, rows') && id in IdsOf(rows, a)
    ensures id in IdsOf(rows', a)
  {
    IdsAreRows(rows, a, id);
    IdsAreRows(rows', a, id);
    var i :| 0 <= i < |rows| && AccountOf(rows[i]) == a && rows[i].egressId == id;
    assert rows[i] in rows';
    var j :| 0 <= j < |rows'| && rows'[j] == rows[i];
  }

  /** The exits an account is bound to, as a set. */
  ghost function BoundTo(rows: seq<Row>, a: Account): set<int> { set id | id in IdsOf(rows, a) }

  lemma {:induction false} BoundToOrderFree(rows: seq<Row>, rows': seq<Row>, a: Account)
    requires SameMembers(rows, rows')
    ensures BoundTo(rows, a) == BoundTo(rows', a) && (IdsOf(rows, a) == [] <==> IdsOf(rows', a) == [])
  {
    forall id ensures id in IdsOf(rows, a) <==> id in IdsOf(rows', a) {
      if id in IdsOf(rows, a) {
        IdsOrderFree(rows, rows', a, id);
      }
      if id in IdsOf(rows', a) {
        IdsOrderFree(rows', rows, a, id);
      }
    }
    assert IdsOf(rows, a) != [] ==> IdsOf(rows, a)[0] in BoundTo(rows, a);
    assert IdsOf(rows', a) != [] ==> IdsOf(rows', a)[0] in BoundTo(rows', a);
  }

  lemma {:induction false} SortNotEmpty(s: seq<int>)
    ensures SortIds(s) == [] <==> s == []
  {
    SortIsSorted(s);
    assert |multiset(SortIds(s))| == |SortIds(s)| && |multiset(s)| == |s|;
  }

  /** The exits a loaded binding allows are those of its rows. */
  lemma {:induction false} AllowedByRows(items: seq<Exit>, rows: seq<Row>, a: Account)
    requires IdsOf(rows, a) != []
    ensures Expected(rows, a).Some? && Expected(rows, a).value.egressIds != []
    ensures Allowed(items, Expected(rows, a).value.egressIds)
         == set u | u in items && u.platform == PLAIN_PLATFORM && u.enabled && u.id in BoundTo(rows, a)
  {
    SortNotEmpty(IdsOf(rows, a));
    forall id ensures id in SortIds(IdsOf(rows, a)) <==> id in BoundTo(rows, a) {
      SortKeepsMembers(IdsOf(rows, a), id);
    }
  }

  /** With unique IDs the choice for an account depends on which exits and which binding rows
      there are, not on the order they come in: the outcome is of the same kind, and in sticky
      mode the exit is the same. */
  lemma {:induction false} ChoiceIsOrderFree(items: seq<Exit>, items': seq<Exit>, rows: seq<Row>, rows': seq<Row>,
                                             a: Account, score: int -> nat, c: Choice, c': Choice)
    requires SameMembers(items, items') && SameMembers(rows, rows') && IdsUnique(set u | u in items)
    requires Selects(items, Expected(rows, a), score, c) && Selects(items', Expected(rows', a), score, c')
    ensures (c.Unbound? <==> c'.Unbound?) && (c.NoneEnabled? <==> c'.NoneEnabled?)
    ensures c.Chosen? && c'.Chosen? && T.RANDOM !in {c.mode, c'.mode} ==> c.exit == c'.exit
  {
    BoundToOrderFree(rows, rows', a);
    if IdsOf(rows, a) != [] {
      AllowedByRows(items, rows, a);
      AllowedByRows(items', rows', a);
      var allowed := Allowed(items, Expected(rows, a).value.egressIds);
      assert allowed == Allowed(items', Expected(rows', a).value.egressIds);
      if c.Chosen? && c'.Chosen? && T.RANDOM !in {c.mode, c'.mode} {
        WinnerIsUnique(allowed, c.exit, c'.exit, score);
      }
    }
  }

  /** The exits a binding lets its account leave through, none without a binding. */
  ghost function AllowedBy(items: seq<Exit>, binding: Option<Binding>): set<Exit> {
    if binding.None? then {} else Allowed(items, binding.value.egressIds)
  }

  /** Removing, disabling or unbinding exits leaves the sticky choice as it is, as long as the
      chosen exit stays. */
  lemma {:induction false} RemovingOthersKeepsPick(items: seq<Exit>, binding: Option<Binding>, c: Choice,
                                                   items': seq<Exit>, binding': Option<Binding>, c': Choice,
                                                   score: int -> nat)
    requires Selects(items, binding, score, c) && c.Chosen? && c.mode != T.RANDOM
    requires IdsUnique(AllowedBy(items, binding))
    requires AllowedBy(items', binding') <= AllowedBy(items, binding) && c.exit in AllowedBy(items', binding')
    requires Selects(items', binding', score, c') && binding'.value.mode != T.RANDOM
    ensures c'.Chosen? && c'.exit == c.exit
  {
    assert binding'.value.egressIds != [] && c'.Chosen?;
    assert Winner(AllowedBy(items', binding'), c.exit, score);
    WinnerIsUnique(AllowedBy(items', binding'), c'.exit, c.exit, score);
  }

  /** Adding, enabling or binding exits leaves the sticky choice as it is or moves it to one of
      the new ones; it stays exactly if every new one loses to the old choice. */
  lemma {:induction false} AddingMovesOnlyToNew(items: seq<Exit>, binding: Option<Binding>, c: Choice,
                                                items': seq<Exit>, binding': Option<Binding>, c': Choice,
                                                score: int -> nat)
    requires Selects(items, binding, score, c) && c.Chosen? && c.mode != T.RANDOM
    requires AllowedBy(items, binding) <= AllowedBy(items', binding') && IdsUnique(AllowedBy(items', binding'))
    requires Selects(items', binding', score, c') && binding'.Some? && binding'.value.mode != T.RANDOM
    ensures c'.Chosen?
    ensures c'.exit == c.exit || c'.exit in AllowedBy(items', binding') - AllowedBy(items, binding)
    ensures c'.exit == c.exit
            <==> forall u :: u in AllowedBy(items', binding') - AllowedBy(items, binding) ==> LosesTo(u, c.exit, score)
  {
    var old_, new_ := AllowedBy(items, binding), AllowedBy(items', binding');
    assert c.exit in new_;
    assert binding'.value.egressIds != [] && c'.Chosen?;
    if forall u :: u in new_ - old_ ==> LosesTo(u, c.exit, score) {
      forall u | u in new_ ensures LosesTo(u, c.exit, score) {
        assert u in old_ || u in new_ - old_;
      }
      WinnerIsUnique(new_, c'.exit, c.exit, score);
    } else if c'.exit in old_ {
      WinnerIsUnique(old_, c'.exit, c.exit, score);
    }
  }

  /** Under one salt, and for one exit, different identities are scored on different preimages. */
  lemma {:induction false} IdentitiesScoredApart(salt: string, key1: string, key2: string, id: int)
    ensures ScorePreimage(salt, key1, id) == ScorePreimage(salt, key2, id) <==> key1 == key2
  {
    var tail := "\0" + Itoa(id);
    assert ScorePreimage(salt, key1, id) == (salt + "\0") + (key1 + tail);
    assert ScorePreimage(salt, key2, id) == (salt + "\0") + (key2 + tail);
    SamePrefix(salt + "\0", key1 + tail, key2 + tail);
    if key1 + tail == key2 + tail {
      assert |key1 + tail| == |key2 + tail|;
      assert key1 == (key1 + tail)[..|key1|] == (key2 + tail)[..|key2|] == key2;
    }
  }

  /** Under one salt, and for one identity, different exits are scored on different preimages. */
  lemma {:induction false} PreimagesDiffer(salt: string, identKey: string, a: int, b: int)
    ensures ScorePreimage(salt, identKey, a) == ScorePreimage(salt, identKey, b) <==> a == b
  {
    var front := salt + "\0" + identKey + "\0";
    assert ScorePreimage(salt, identKey, a)[|front|..] == Itoa(a);
    assert ScorePreimage(salt, identKey, b)[|front|..] == Itoa(b);
    ItoaInjective(a, b);
  }
}
