/** The bounded store of per-identity salts and failure streaks: a least recently
    used cache behind the hash of the identity, its refinement of an unbounded
    map, and the salt as a function of the outcome history. */
module Salts {
  import opened Text

  datatype SaltState = SaltState(salt: int, failures: int)

  const ZERO := SaltState(0, 0)
  const DEFAULT_CAPACITY := 10000

  // ---------- The cache ----------

  /** Keys from the most to the least recently used, with their values. */
  datatype Lru = Lru(order: seq<string>, vals: map<string, SaltState>)

  const EMPTY := Lru([], map[])

  function Remove(order: seq<string>, k: string): seq<string> {
    if |order| == 0 then []
    else if order[0] == k then Remove(order[1..], k)
    else [order[0]] + Remove(order[1..], k)
  }

  /** Store a value as the most recently used; past the capacity the least recently
      used entry goes. */
  function Put(c: Lru, cap: nat, k: string, v: SaltState): Lru {
    var order := [k] + Remove(c.order, k);
    if |order| <= cap then Lru(order, c.vals[k := v])
    else Lru(order[..|order| - 1], c.vals[k := v] - {order[|order| - 1]})
  }

  function ValueOf(vals: map<string, SaltState>, k: string): SaltState {
    if k in vals then vals[k] else ZERO
  }

  ghost predicate LruOk(c: Lru, cap: nat) {
    && cap >= 1
    && |c.order| <= cap
    && (forall i, j :: 0 <= i < j < |c.order| ==> c.order[i] != c.order[j])
    && (forall k :: k in c.order <==> k in c.vals)
  }

  // ---------- Operations ----------

  datatype Op =
    | Seed(fp: string, salt: int)
    | Get(m: string)
    | Rotate(m: string)
    | Fail(m: string, threshold: int)
    | Clear(m: string)

  function KeyOf(op: Op, hash: string -> string): string {
    if op.Seed? then op.fp else hash(op.m)
  }

  predicate Inserts(op: Op) { op.Seed? || op.Rotate? || op.Fail? }

  function AtLeastOne(threshold: int): int { if threshold < 1 then 1 else threshold }

  /** What an operation makes of the state of its key. */
  function Effect(op: Op, v: SaltState): SaltState {
    match op
    case Seed(_, salt) => SaltState(if salt < 0 then 0 else salt, 0)
    case Get(_) => v
    case Rotate(_) => SaltState(v.salt + 1, 0)
    case Fail(_, threshold) =>
      if v.failures + 1 >= AtLeastOne(threshold) then SaltState(v.salt + 1, 0)
      else SaltState(v.salt, v.failures + 1)
    case Clear(_) => SaltState(v.salt, 0)
  }

  function StepLru(c: Lru, cap: nat, hash: string -> string, op: Op): Lru {
    var k := KeyOf(op, hash);
    if k in c.vals || Inserts(op) then Put(c, cap, k, Effect(op, ValueOf(c.vals, k))) else c
  }

  function StepMap(m: map<string, SaltState>, hash: string -> string, op: Op): map<string, SaltState> {
    var k := KeyOf(op, hash);
    if k in m || Inserts(op) then m[k := Effect(op, ValueOf(m, k))] else m
  }

  function RunLru(cap: nat, hash: string -> string, ops: seq<Op>): Lru {
    if |ops| == 0 then EMPTY
    else StepLru(RunLru(cap, hash, ops[..|ops| - 1]), cap, hash, ops[|ops| - 1])
  }

  function RunMap(hash: string -> string, ops: seq<Op>): map<string, SaltState> {
    if |ops| == 0 then map[]
    else StepMap(RunMap(hash, ops[..|ops| - 1]), hash, ops[|ops| - 1])
  }

  // ---------- The store ----------

  /** `hash` is the SHA-256 fingerprint of an identity, kept uninterpreted. */
  class SaltStore {
    const cap: nat
    const hash: string -> string
    /** Keys from the most to the least recently used, and their values. */
    var order: seq<string>
    var vals: map<string, SaltState>

    function Cache(): Lru
      reads this
    {
      Lru(order, vals)
    }

    ghost predicate Valid()
      reads this
    {
      LruOk(Cache(), cap)
    }

    constructor (capacity: int, hash: string -> string)
      ensures Valid() && Cache() == EMPTY && this.hash == hash
      ensures cap == if capacity <= 0 then DEFAULT_CAPACITY else capacity
    {
      cap := if capacity <= 0 then DEFAULT_CAPACITY else capacity;
      this.hash := hash;
      order, vals := [], map[];
    }

    /** Make a key the most recently used one, wherever it was. */
    method MoveToFront(k: string)
      requires forall i, j :: 0 <= i < j < |order| ==> order[i] != order[j]
      modifies `order
      ensures order == [k] + Remove(old(order), k)
    {
      var i := 0;
      while i < |order| && order[i] != k
        invariant 0 <= i <= |order| && k !in order[..i]
      {
        assert order[..i + 1] == order[..i] + [order[i]];
        i := i + 1;
      }
      RemoveAt(order, k, i);
      order := [k] + if i < |order| then order[..i] + order[i + 1..] else order;
    }

    /** The library's lookup: a hit becomes the most recently used entry. */
    method CacheGet(k: string) returns (v: SaltState, hit: bool)
      requires Valid()
      modifies this
      ensures Valid()
      ensures hit == (k in old(vals)) && v == ValueOf(old(vals), k)
      ensures Cache() == if hit then Put(old(Cache()), cap, k, v) else old(Cache())
    {
      if k !in vals {
        return ZERO, false;
      }
      ghost var c0 := Cache();
      PutOk(c0, cap, k, vals[k]);
      PutPresent(c0, cap, k, vals[k]);
      MoveToFront(k);
      assert vals[k := vals[k]] == vals;
      return vals[k], true;
    }

    /** The library's store: evict the least recently used entry when the store is over-full. */
    method CacheAdd(k: string, v: SaltState)
      requires Valid()
      modifies this
      ensures Valid() && Cache() == Put(old(Cache()), cap, k, v)
    {
      ghost var after := Put(Cache(), cap, k, v);
      PutOk(Cache(), cap, k, v);
      MoveToFront(k);
      vals := vals[k := v];
      if |order| > cap {
        var oldest := order[|order| - 1];
        order := order[..|order| - 1];
        vals := vals - {oldest};
      }
      assert Cache() == after;
    }

    method SeedFingerprint(fp: string, salt: int)
      requires Valid()
      modifies this
      ensures Valid() && Cache() == StepLru(old(Cache()), cap, hash, Seed(fp, salt))
      ensures fp in vals && vals[fp] == SaltState(if salt < 0 then 0 else salt, 0)
    {
      StepMeaning(Cache(), cap, hash, Seed(fp, salt));
      var s := salt;
      if s < 0 {
        s := 0;
      }
      CacheAdd(fp, SaltState(s, 0));
    }

    method GetSalt(m: string) returns (salt: int)
      requires Valid()
      modifies this
      ensures Valid() && Cache() == StepLru(old(Cache()), cap, hash, Get(m))
      ensures salt == ValueOf(old(Cache()).vals, hash(m)).salt
      ensures ValueOf(vals, hash(m)) == ValueOf(old(vals), hash(m))
    {
      StepMeaning(Cache(), cap, hash, Get(m));
      var v, hit := CacheGet(hash(m));
      if hit {
        return v.salt;
      }
      return 0;
    }

    method RotateSalt(m: string) returns (salt: int)
      requires Valid()
      modifies this
      ensures Valid() && Cache() == StepLru(old(Cache()), cap, hash, Rotate(m))
      ensures salt == ValueOf(old(Cache()).vals, hash(m)).salt + 1
      ensures ValueOf(vals, hash(m)) == SaltState(salt, 0)
    {
      StepMeaning(Cache(), cap, hash, Rotate(m));
      var k := hash(m);
      ghost var c0 := Cache();
      var v, hit := CacheGet(k);
      v := SaltState(v.salt + 1, 0);
      ghost var c1 := Cache();
      assert v == Effect(Rotate(m), ValueOf(c0.vals, k));
      CacheAdd(k, v);
      GetThenAdd(c0, c1, Cache(), cap, hash, Rotate(m));
      return v.salt;
    }

    method RecordFailure(m: string, threshold: int) returns (rotated: bool, salt: int, failures: int)
      requires Valid()
      modifies this
      ensures Valid() && Cache() == StepLru(old(Cache()), cap, hash, Fail(m, threshold))
      ensures var v := ValueOf(old(Cache()).vals, hash(m));
        failures == v.failures + 1 && (rotated <==> failures >= if threshold < 1 then 1 else threshold)
        && salt == v.salt + if rotated then 1 else 0
      ensures ValueOf(vals, hash(m)) == SaltState(salt, if rotated then 0 else failures)
    {
      StepMeaning(Cache(), cap, hash, Fail(m, threshold));
      var limit := threshold;
      if limit < 1 {
        limit := 1;
      }
      var k := hash(m);
      ghost var c0 := Cache();
      var v, hit := CacheGet(k);
      v := v.(failures := v.failures + 1);
      failures := v.failures;
      rotated := false;
      if v.failures >= limit {
        v := SaltState(v.salt + 1, 0);
        rotated := true;
      }
      ghost var c1 := Cache();
      assert v == Effect(Fail(m, threshold), ValueOf(c0.vals, k));
      CacheAdd(k, v);
      GetThenAdd(c0, c1, Cache(), cap, hash, Fail(m, threshold));
      salt := v.salt;
    }

    method ClearFailures(m: string)
      requires Valid()
      modifies this
      ensures Valid() && Cache() == StepLru(old(Cache()), cap, hash, Clear(m))
      ensures ValueOf(vals, hash(m)) == SaltState(ValueOf(old(vals), hash(m)).salt, 0)
    {
      StepMeaning(Cache(), cap, hash, Clear(m));
      var k := hash(m);
      ghost var c0 := Cache();
      var v, hit := CacheGet(k);
      if !hit {
        return;
      }
      v := v.(failures := 0);
      ghost var c1 := Cache();
      CacheAdd(k, v);
      GetThenAdd(c0, c1, Cache(), cap, hash, Clear(m));
    }
  }

  // ---------- Cache facts ----------

  lemma {:induction false} RemoveFacts(order: seq<string>, k: string)
    requires forall i, j :: 0 <= i < j < |order| ==> order[i] != order[j]
    ensures var r := Remove(order, k);
      (forall x :: x in r <==> x in order && x != k)
      && (forall i, j :: 0 <= i < j < |r| ==> r[i] != r[j])
      && |r| == (if k in order then |order| - 1 else |order|)
  {
    if |order| > 0 {
      RemoveFacts(order[1..], k);
      assert order == [order[0]] + order[1..];
      assert order[0] !in order[1..];
    }
  }

  lemma {:induction false} RemoveIdempotent(order: seq<string>, k: string)
    requires k !in order
    ensures Remove(order, k) == order
  {
    if |order| > 0 {
      assert order[0] in order;
      RemoveIdempotent(order[1..], k);
    }
  }

  lemma {:induction false} RemoveAt(order: seq<string>, k: string, i: nat)
    requires forall i, j :: 0 <= i < j < |order| ==> order[i] != order[j]
    requires i <= |order| && k !in order[..i] && (i < |order| ==> order[i] == k)
    ensures Remove(order, k) == if i < |order| then order[..i] + order[i + 1..] else order
  {
    if i == 0 {
      if |order| > 0 {
        assert order[0] !in order[1..];
        RemoveIdempotent(order[1..], k);
        assert order[..0] + order[1..] == order[1..];
      }
    } else {
      assert order[0] == order[..i][0];
      assert order[1..][..i - 1] == order[..i][1..];
      RemoveAt(order[1..], k, i - 1);
      if i < |order| {
        assert order[..i] == [order[0]] + order[1..][..i - 1];
        assert order[1..][i..] == order[i + 1..];
      } else {
        assert order == [order[0]] + order[1..];
      }
    }
  }

  lemma {:induction false} FrontOk(c: Lru, cap: nat, k: string, v: SaltState)
    requires LruOk(c, cap)
    ensures LruOk(Lru([k] + Remove(c.order, k), c.vals[k := v]), cap + 1)
  {
    RemoveFacts(c.order, k);
    var order := [k] + Remove(c.order, k);
    assert forall i :: 1 <= i < |order| ==> order[i] == Remove(c.order, k)[i - 1];
  }

  lemma {:induction false} EvictOk(c: Lru, cap: nat)
    requires LruOk(c, cap + 1) && |c.order| == cap + 1 && cap >= 1
    ensures LruOk(Lru(c.order[..cap], c.vals - {c.order[cap]}), cap)
  {
    var order := c.order[..cap];
    assert c.order == order + [c.order[cap]];
    assert c.order[cap] !in order;
  }

  lemma {:induction false} PutOk(c: Lru, cap: nat, k: string, v: SaltState)
    requires LruOk(c, cap)
    ensures LruOk(Put(c, cap, k, v), cap)
  {
    FrontOk(c, cap, k, v);
    var c' := Lru([k] + Remove(c.order, k), c.vals[k := v]);
    if |c'.order| > cap {
      EvictOk(c', cap);
    }
  }

  lemma {:induction false} PutPresent(c: Lru, cap: nat, k: string, v: SaltState)
    requires LruOk(c, cap) && k in c.vals
    ensures Put(c, cap, k, v) == Lru([k] + Remove(c.order, k), c.vals[k := v])
  {
    RemoveFacts(c.order, k);
  }

  /** The least recently used entry goes when a new key meets a full store. */
  predicate Evicted(c: Lru, cap: nat, k: string, x: string)
    requires cap >= 1
  {
    k !in c.vals && |c.order| == cap && x == c.order[cap - 1]
  }

  lemma {:induction false} PutAbsent(c: Lru, cap: nat, k: string, v: SaltState)
    requires LruOk(c, cap) && k !in c.vals
    ensures Put(c, cap, k, v) == if |c.order| < cap then Lru([k] + c.order, c.vals[k := v])
                                 else Lru([k] + c.order[..cap - 1], c.vals[k := v] - {c.order[cap - 1]})
  {
    RemoveIdempotent(c.order, k);
    if |c.order| == cap {
      var front := [k] + c.order;
      assert front[..cap] == [k] + c.order[..cap - 1] && front[cap] == c.order[cap - 1];
    }
  }

  /** In c', k is in front with value v; the others keep their order and their values, and none
      but the evicted one is missing. */
  ghost predicate Stored(c: Lru, c': Lru, cap: nat, k: string, v: SaltState)
    requires cap >= 1
  {
    && |c'.order| > 0 && c'.order[0] == k && k in c'.vals && c'.vals[k] == v
    && c'.order[1..] <= Remove(c.order, k)
    && (forall x :: x != k ==> (x in c'.vals <==> x in c.vals && !Evicted(c, cap, k, x)))
    && (forall x :: x != k && x in c'.vals && x in c.vals ==> c'.vals[x] == c.vals[x])
  }

  lemma {:induction false} PresentStored(c: Lru, cap: nat, k: string, v: SaltState)
    requires LruOk(c, cap) && k in c.vals
    ensures Stored(c, Put(c, cap, k, v), cap, k, v)
  {
    PutPresent(c, cap, k, v);
    AppendTail([k], Remove(c.order, k));
  }

  lemma {:induction false} AbsentOrder(c: Lru, cap: nat, k: string, v: SaltState)
    requires LruOk(c, cap) && k !in c.vals
    ensures var order := Put(c, cap, k, v).order;
      |order| > 0 && order[0] == k && order[1..] <= Remove(c.order, k)
  {
    PutAbsent(c, cap, k, v);
    RemoveIdempotent(c.order, k);
    var rest := if |c.order| < cap then c.order else c.order[..cap - 1];
    assert rest <= c.order;
    AppendTail([k], rest);
    assert [k][1..] + rest == rest;
  }

  lemma {:induction false} AbsentVals(c: Lru, cap: nat, k: string, v: SaltState)
    requires LruOk(c, cap) && k !in c.vals
    ensures var vals := Put(c, cap, k, v).vals;
      && k in vals && vals[k] == v
      && (forall x :: x != k ==> (x in vals <==> x in c.vals && !Evicted(c, cap, k, x)))
      && (forall x :: x != k && x in vals && x in c.vals ==> vals[x] == c.vals[x])
  {
    PutAbsent(c, cap, k, v);
    if |c.order| == cap {
      assert c.order[cap - 1] in c.order;
    }
  }

  lemma {:induction false} AbsentStored(c: Lru, cap: nat, k: string, v: SaltState)
    requires LruOk(c, cap) && k !in c.vals
    ensures Stored(c, Put(c, cap, k, v), cap, k, v)
  {
    AbsentOrder(c, cap, k, v);
    AbsentVals(c, cap, k, v);
  }

  /** Storing puts the key in front and changes no other value; the others keep their order;
      only when the key is new and the store is full does one go, the least recently used. */
  lemma {:induction false} PutMeaning(c: Lru, cap: nat, k: string, v: SaltState)
    requires LruOk(c, cap)
    ensures LruOk(Put(c, cap, k, v), cap) && Stored(c, Put(c, cap, k, v), cap, k, v)
  {
    PutOk(c, cap, k, v);
    if k in c.vals {
      PresentStored(c, cap, k, v);
    } else {
      AbsentStored(c, cap, k, v);
    }
  }

  /** What a step leaves under its key. */
  lemma {:induction false} StepMeaning(c: Lru, cap: nat, hash: string -> string, op: Op)
    requires LruOk(c, cap)
    ensures var v, v' := ValueOf(c.vals, KeyOf(op, hash)), ValueOf(StepLru(c, cap, hash, op).vals, KeyOf(op, hash));
      match op
      case Seed(fp, salt) => v' == SaltState(if salt < 0 then 0 else salt, 0)
      case Get(_) => v' == v
      case Rotate(_) => v' == SaltState(v.salt + 1, 0)
      case Fail(_, threshold) =>
        v' == if v.failures + 1 >= (if threshold < 1 then 1 else threshold) then SaltState(v.salt + 1, 0)
              else SaltState(v.salt, v.failures + 1)
      case Clear(_) => v' == SaltState(v.salt, if KeyOf(op, hash) in c.vals then 0 else v.failures)
    ensures Inserts(op) ==> KeyOf(op, hash) in StepLru(c, cap, hash, op).vals
  {
    PutMeaning(c, cap, KeyOf(op, hash), Effect(op, ValueOf(c.vals, KeyOf(op, hash))));
  }

  lemma {:induction false} FrontAgain(order: seq<string>, k: string)
    requires forall i, j :: 0 <= i < j < |order| ==> order[i] != order[j]
    ensures Remove([k] + Remove(order, k), k) == Remove(order, k)
  {
    var r := Remove(order, k);
    RemoveFacts(order, k);
    assert ([k] + r)[1..] == r;
    RemoveIdempotent(r, k);
  }

  /** Storing a present key depends on the other keys' order and on the values only. */
  lemma {:induction false} PutOver(c: Lru, c1: Lru, cap: nat, k: string, w: SaltState)
    requires LruOk(c, cap) && LruOk(c1, cap) && k in c.vals && k in c1.vals
    requires Remove(c1.order, k) == Remove(c.order, k) && c1.vals[k := w] == c.vals[k := w]
    ensures Put(c1, cap, k, w) == Put(c, cap, k, w)
  {
    PutPresent(c, cap, k, w);
    PutPresent(c1, cap, k, w);
  }

  /** Refreshing an entry and then storing it is storing it. */
  lemma {:induction false} PutTwice(c: Lru, cap: nat, k: string, v: SaltState, w: SaltState)
    requires LruOk(c, cap) && k in c.vals
    ensures Put(Put(c, cap, k, v), cap, k, w) == Put(c, cap, k, w)
  {
    var c1 := Lru([k] + Remove(c.order, k), c.vals[k := v]);
    PutPresent(c, cap, k, v);
    PutOk(c, cap, k, v);
    FrontAgain(c.order, k);
    assert c.vals[k := v][k := w] == c.vals[k := w];
    PutOver(c, c1, cap, k, w);
  }

  /** Looking a key up and storing its new state is one step. */
  lemma {:induction false} GetThenAdd(c0: Lru, c1: Lru, c2: Lru, cap: nat, hash: string -> string, op: Op)
    requires LruOk(c0, cap)
    requires c1 == if KeyOf(op, hash) in c0.vals
                   then Put(c0, cap, KeyOf(op, hash), ValueOf(c0.vals, KeyOf(op, hash))) else c0
    requires c2 == Put(c1, cap, KeyOf(op, hash), Effect(op, ValueOf(c0.vals, KeyOf(op, hash))))
    requires Inserts(op) || KeyOf(op, hash) in c0.vals
    ensures c2 == StepLru(c0, cap, hash, op)
  {
    var k := KeyOf(op, hash);
    if k in c0.vals {
      PutTwice(c0, cap, k, ValueOf(c0.vals, k), Effect(op, ValueOf(c0.vals, k)));
    }
  }

  /** The size never exceeds the capacity, in any run. */
  lemma {:induction false} RunLruOk(cap: nat, hash: string -> string, ops: seq<Op>)
    requires cap >= 1
    ensures LruOk(RunLru(cap, hash, ops), cap)
  {
    if |ops| > 0 {
      var before := RunLru(cap, hash, ops[..|ops| - 1]);
      RunLruOk(cap, hash, ops[..|ops| - 1]);
      var op := ops[|ops| - 1];
      var k := KeyOf(op, hash);
      PutOk(before, cap, k, Effect(op, ValueOf(before.vals, k)));
    }
  }

  /** A miss of a lookup or of a clear changes nothing at all. */
  lemma MissInsertsNothing(c: Lru, cap: nat, hash: string -> string, m: string)
    requires hash(m) !in c.vals
    ensures StepLru(c, cap, hash, Get(m)) == c && StepLru(c, cap, hash, Clear(m)) == c
  {
  }

  // ---------- Refinement of the unbounded map ----------

  predicate Touched(ops: seq<Op>, hash: string -> string, k: string) {
    exists i :: 0 <= i < |ops| && KeyOf(ops[i], hash) == k
  }

  /** The distinct other keys named since key k was last named. */
  function Others(ops: seq<Op>, hash: string -> string, k: string): set<string> {
    if |ops| == 0 then {}
    else
      var k' := KeyOf(ops[|ops| - 1], hash);
      if k' == k then {} else Others(ops[..|ops| - 1], hash, k) + {k'}
  }

  /** From each touch of k on, fewer than `cap` distinct other keys are named. */
  ghost predicate KeptWarm(ops: seq<Op>, cap: nat, hash: string -> string, k: string) {
    forall n :: 0 <= n <= |ops| && Touched(ops[..n], hash, k) ==> |Others(ops[..n], hash, k)| < cap
  }

  /** k is present, and everything used more recently is in `ahead`. */
  ghost predicate Behind(order: seq<string>, k: string, ahead: set<string>) {
    exists j :: 0 <= j < |order| && order[j] == k && forall i :: 0 <= i < j ==> order[i] in ahead
  }

  lemma {:induction false} PrefixFits(prefix: seq<string>, s: set<string>)
    requires forall i, j :: 0 <= i < j < |prefix| ==> prefix[i] != prefix[j]
    requires forall i :: 0 <= i < |prefix| ==> prefix[i] in s
    ensures |prefix| <= |s|
  {
    if |prefix| > 0 {
      var last := prefix[|prefix| - 1];
      PrefixFits(prefix[..|prefix| - 1], s - {last});
    }
  }

  lemma {:induction false} RemoveKeepsBehind(order: seq<string>, x: string, k: string, ahead: set<string>)
    requires x != k && Behind(order, k, ahead)
    ensures Behind(Remove(order, x), k, ahead)
  {
    var j :| 0 <= j < |order| && order[j] == k && forall i :: 0 <= i < j ==> order[i] in ahead;
    var r := Remove(order, x);
    if j == 0 {
      assert r[0] == k;
    } else {
      assert order[1..][j - 1] == k;
      assert forall i :: 0 <= i < j - 1 ==> order[1..][i] in ahead;
      RemoveKeepsBehind(order[1..], x, k, ahead);
      if order[0] != x {
        var r1 := Remove(order[1..], x);
        var j1 :| 0 <= j1 < |r1| && r1[j1] == k && forall i :: 0 <= i < j1 ==> r1[i] in ahead;
        assert r[j1 + 1] == k;
        assert forall i :: 1 <= i < j1 + 1 ==> r[i] == r1[i - 1];
      }
    }
  }

  lemma {:induction false} FrontKeepsBehind(order: seq<string>, x: string, k: string, ahead: set<string>)
    requires x != k && Behind(order, k, ahead)
    ensures Behind([x] + Remove(order, x), k, ahead + {x})
  {
    RemoveKeepsBehind(order, x, k, ahead);
    var r := Remove(order, x);
    var j :| 0 <= j < |r| && r[j] == k && forall i :: 0 <= i < j ==> r[i] in ahead;
    var front := [x] + r;
    assert front[j + 1] == k;
    assert forall i :: 1 <= i < j + 1 ==> front[i] == r[i - 1];
  }

  /** Something with fewer than `cap` keys ahead of it is not the one to evict. */
  lemma {:induction false} BehindIsNotLast(order: seq<string>, cap: nat, k: string, ahead: set<string>)
    requires forall i, j :: 0 <= i < j < |order| ==> order[i] != order[j]
    requires |order| == cap + 1 && Behind(order, k, ahead) && |ahead| < cap
    ensures order[cap] != k && Behind(order[..cap], k, ahead)
  {
    var j :| 0 <= j < |order| && order[j] == k && forall i :: 0 <= i < j ==> order[i] in ahead;
    PrefixFits(order[..j], ahead);
    assert order[..cap][j] == k;
  }

  lemma FreshInFront(order: seq<string>, x: string)
    requires forall i, j :: 0 <= i < j < |order| ==> order[i] != order[j]
    ensures var front := [x] + Remove(order, x); forall i, j :: 0 <= i < j < |front| ==> front[i] != front[j]
  {
    RemoveFacts(order, x);
    var front := [x] + Remove(order, x);
    assert forall i :: 1 <= i < |front| ==> front[i] == Remove(order, x)[i - 1];
  }

  lemma {:induction false} FrontFits(order: seq<string>, cap: nat, x: string, k: string, ahead: set<string>)
    requires forall i, j :: 0 <= i < j < |order| ==> order[i] != order[j]
    requires |order| <= cap && x != k && Behind(order, k, ahead) && |ahead + {x}| < cap
    ensures var front := [x] + Remove(order, x);
      && |front| <= cap + 1 && Behind(front, k, ahead + {x})
      && (|front| == cap + 1 ==> front[cap] != k && Behind(front[..cap], k, ahead + {x}))
  {
    FrontKeepsBehind(order, x, k, ahead);
    RemoveFacts(order, x);
    FreshInFront(order, x);
    if |Remove(order, x)| == cap {
      BehindIsNotLast([x] + Remove(order, x), cap, k, ahead + {x});
    }
  }

  /** Using another key cannot evict k while fewer than `cap` keys are ahead of it. */
  lemma {:induction false} PutKeepsOther(c: Lru, cap: nat, x: string, v: SaltState, k: string, ahead: set<string>)
    requires LruOk(c, cap) && x != k && k in c.vals
    requires Behind(c.order, k, ahead) && |ahead + {x}| < cap
    ensures var c' := Put(c, cap, x, v);
      k in c'.vals && c'.vals[k] == c.vals[k] && Behind(c'.order, k, ahead + {x})
  {
    FrontFits(c.order, cap, x, k, ahead);
  }

  /** The state of k in the bounded store agrees with the unbounded map. */
  ghost predicate Agrees(c: Lru, m: map<string, SaltState>, k: string, ahead: set<string>) {
    && (k in c.vals <==> k in m)
    && (k in m ==> c.vals[k] == m[k] && Behind(c.order, k, ahead))
  }

  lemma {:induction false} TouchedPrefix(ops: seq<Op>, hash: string -> string, k: string)
    requires |ops| > 0
    ensures Touched(ops, hash, k)
            <==> Touched(ops[..|ops| - 1], hash, k) || KeyOf(ops[|ops| - 1], hash) == k
  {
    var before := ops[..|ops| - 1];
    assert forall i :: 0 <= i < |before| ==> before[i] == ops[i];
  }

  lemma {:induction false} UntouchedAbsent(ops: seq<Op>, hash: string -> string, k: string)
    ensures k in RunMap(hash, ops) ==> Touched(ops, hash, k)
  {
    if |ops| > 0 {
      UntouchedAbsent(ops[..|ops| - 1], hash, k);
      TouchedPrefix(ops, hash, k);
    }
  }

  lemma {:induction false} BehindMore(order: seq<string>, k: string, ahead: set<string>, x: string)
    requires Behind(order, k, ahead)
    ensures Behind(order, k, ahead + {x})
  {
    var j :| 0 <= j < |order| && order[j] == k && forall i :: 0 <= i < j ==> order[i] in ahead;
    assert order[j] == k;
  }

  /** One operation on another key keeps the agreement about k. */
  lemma {:induction false} OtherKeyAgrees(c: Lru, m: map<string, SaltState>, cap: nat, hash: string -> string, op: Op,
                                          k: string, ahead: set<string>)
    requires LruOk(c, cap) && Agrees(c, m, k, ahead) && KeyOf(op, hash) != k
    requires k in m ==> |ahead + {KeyOf(op, hash)}| < cap
    ensures Agrees(StepLru(c, cap, hash, op), StepMap(m, hash, op), k, ahead + {KeyOf(op, hash)})
  {
    var x := KeyOf(op, hash);
    var v := Effect(op, ValueOf(c.vals, x));
    if k in m {
      BehindMore(c.order, k, ahead, x);
      PutKeepsOther(c, cap, x, v, k, ahead);
    } else {
      RemoveFacts(c.order, x);
    }
  }

  /** One operation on k itself. */
  lemma {:induction false} OwnKeyAgrees(c: Lru, m: map<string, SaltState>, cap: nat, hash: string -> string, op: Op,
                                        ahead: set<string>)
    requires LruOk(c, cap) && Agrees(c, m, KeyOf(op, hash), ahead)
    ensures Agrees(StepLru(c, cap, hash, op), StepMap(m, hash, op), KeyOf(op, hash), {})
  {
    var k := KeyOf(op, hash);
    RemoveFacts(c.order, k);
    assert ([k] + Remove(c.order, k))[0] == k;
  }

  /** As long as fewer than `cap` distinct other keys are named between touches of
      a key, the bounded store keeps for it what an unbounded map would keep. */
  lemma {:induction false} LruRefinesMap(cap: nat, hash: string -> string, ops: seq<Op>, k: string)
    requires cap >= 1 && KeptWarm(ops, cap, hash, k)
    ensures Agrees(RunLru(cap, hash, ops), RunMap(hash, ops), k, Others(ops, hash, k))
    ensures ValueOf(RunLru(cap, hash, ops).vals, k) == ValueOf(RunMap(hash, ops), k)
  {
    if |ops| > 0 {
      var before, op := ops[..|ops| - 1], ops[|ops| - 1];
      forall n | 0 <= n <= |before| && Touched(before[..n], hash, k)
        ensures |Others(before[..n], hash, k)| < cap
      {
        assert before[..n] == ops[..n];
      }
      LruRefinesMap(cap, hash, before, k);
      RunLruOk(cap, hash, before);
      var c, m := RunLru(cap, hash, before), RunMap(hash, before);
      if KeyOf(op, hash) == k {
        OwnKeyAgrees(c, m, cap, hash, op, Others(before, hash, k));
      } else {
        UntouchedAbsent(before, hash, k);
        TouchedPrefix(ops, hash, k);
        assert ops[..|ops|] == ops;
        OtherKeyAgrees(c, m, cap, hash, op, k, Others(before, hash, k));
      }
    }
  }

  // ---------- The bound is tight ----------

  function Rotations(ms: seq<string>): seq<Op> {
    seq(|ms|, i requires 0 <= i < |ms| => Rotate(ms[i]))
  }

  lemma {:induction false} RemoveKeepsPrefix(order: seq<string>, x: string, n: nat)
    requires n <= |order| && x !in order[..n]
    ensures |Remove(order, x)| >= n && Remove(order, x)[..n] == order[..n]
  {
    if n > 0 {
      assert order[..n][0] == order[0];
      assert order[1..][..n - 1] == order[..n][1..];
      RemoveKeepsPrefix(order[1..], x, n - 1);
      assert order[..n] == [order[0]] + order[1..][..n - 1];
    }
  }

  /** The first entries are the given markers' keys, the last marker in front. */
  ghost predicate InFront(order: seq<string>, hash: string -> string, ms: seq<string>) {
    |order| >= |ms| && forall i :: 0 <= i < |ms| ==> order[i] == hash(ms[|ms| - 1 - i])
  }

  /** Putting an absent key in front shifts the front by one. */
  lemma {:induction false} ShiftFront(order: seq<string>, x: string, hash: string -> string, ms: seq<string>, m: string)
    requires InFront(order, hash, ms) && x == hash(m)
    requires forall i :: 0 <= i < |ms| ==> hash(ms[i]) != x
    ensures InFront([x] + Remove(order, x), hash, ms + [m])
  {
    assert forall i :: 0 <= i < |ms| ==> order[..|ms|][i] != x;
    RemoveKeepsPrefix(order, x, |ms|);
    var r, front := Remove(order, x), [x] + Remove(order, x);
    forall i | 0 <= i < |ms| + 1 ensures front[i] == hash((ms + [m])[|ms| - i]) {
      if i > 0 {
        assert front[i] == r[..|ms|][i - 1] == order[..|ms|][i - 1];
      }
    }
  }

  lemma {:induction false} PutInFront(c: Lru, cap: nat, hash: string -> string, ms: seq<string>, m: string,
                                      v: SaltState)
    requires LruOk(c, cap) && InFront(c.order, hash, ms) && |ms| < cap
    requires forall i :: 0 <= i < |ms| ==> hash(ms[i]) != hash(m)
    ensures InFront(Put(c, cap, hash(m), v).order, hash, ms + [m])
  {
    ShiftFront(c.order, hash(m), hash, ms, m);
  }

  lemma RotationsSnoc(ops: seq<Op>, ms: seq<string>)
    requires |ms| > 0
    ensures var all := ops + Rotations(ms);
      all[|all| - 1] == Rotate(ms[|ms| - 1]) && all[..|all| - 1] == ops + Rotations(ms[..|ms| - 1])
    ensures ms == ms[..|ms| - 1] + [ms[|ms| - 1]]
  {
  }

  lemma {:induction false} FreshKeysFront(cap: nat, hash: string -> string, ops: seq<Op>, ms: seq<string>)
    requires cap >= 1 && |ms| <= cap
    requires forall i, j :: 0 <= i < j < |ms| ==> hash(ms[i]) != hash(ms[j])
    ensures InFront(RunLru(cap, hash, ops + Rotations(ms)).order, hash, ms)
  {
    if |ms| > 0 {
      var ms', m := ms[..|ms| - 1], ms[|ms| - 1];
      var before, all := ops + Rotations(ms'), ops + Rotations(ms);
      FreshKeysFront(cap, hash, ops, ms');
      RunLruOk(cap, hash, before);
      RotationsSnoc(ops, ms);
      var c := RunLru(cap, hash, before);
      PutInFront(c, cap, hash, ms', m, Effect(Rotate(m), ValueOf(c.vals, hash(m))));
    }
  }

  /** With as many distinct other keys as the capacity the salt is forgotten. */
  lemma {:induction false} CapacityOtherKeysForget(cap: nat, hash: string -> string, ops: seq<Op>, k: string,
                                                   ms: seq<string>)
    requires cap >= 1 && |ms| == cap
    requires forall i, j :: 0 <= i < j < |ms| ==> hash(ms[i]) != hash(ms[j])
    requires forall i :: 0 <= i < |ms| ==> hash(ms[i]) != k
    ensures ValueOf(RunLru(cap, hash, ops + Rotations(ms)).vals, k) == ZERO
  {
    FreshKeysFront(cap, hash, ops, ms);
    RunLruOk(cap, hash, ops + Rotations(ms));
    var c := RunLru(cap, hash, ops + Rotations(ms));
    assert forall i :: 0 <= i < |c.order| ==> c.order[i] == hash(ms[|ms| - 1 - i]) != k;
  }
}
