/** How outcomes of forwarded requests drive an identity's salt, and why every
    rotation changes the identity that is derived from it. */
module SaltHistory {
  import opened Text
  import opened Salts

  /** Unusable: the exit failed in a way that rotates; OtherError: it failed
      otherwise; Response: an HTTP response arrived. */
  datatype Outcome = Unusable | OtherError | Response

  function OpOf(o: Outcome, saltKey: string, threshold: int): Op {
    if o == Unusable then Fail(saltKey, threshold) else Clear(saltKey)
  }

  /** A forwarding error, recorded for a rotatable identity that went through an exit. */
  method RecordError(store: SaltStore, saltKey: string, viaUpstream: bool, unusable: bool, threshold: int)
    requires store.Valid()
    modifies store
    ensures store.Valid()
    ensures store.Cache() == if saltKey == "" || !viaUpstream then old(store.Cache())
                       else StepLru(old(store.Cache()), store.cap, store.hash,
                                    OpOf(if unusable then Unusable else OtherError, saltKey, threshold))
  {
    if saltKey == "" || !viaUpstream {
      return;
    }
    if !unusable {
      store.ClearFailures(saltKey);
      return;
    }
    var rotated, salt, failures := store.RecordFailure(saltKey, threshold);
  }

  /** A response arrived: the link works, whatever its status. */
  method RecordResponse(store: SaltStore, saltKey: string, viaUpstream: bool, transportFailed: bool)
    requires store.Valid()
    modifies store
    ensures store.Valid()
    ensures store.Cache() == if saltKey == "" || !viaUpstream || transportFailed then old(store.Cache())
                       else StepLru(old(store.Cache()), store.cap, store.hash, Clear(saltKey))
  {
    if saltKey != "" && viaUpstream && !transportFailed {
      store.ClearFailures(saltKey);
    }
  }

  // ---------- The salt of a history ----------

  /** The state after a history, one outcome at a time. */
  function After(outs: seq<Outcome>, threshold: int): SaltState {
    if |outs| == 0 then ZERO
    else Effect(OpOf(outs[|outs| - 1], "", threshold), After(outs[..|outs| - 1], threshold))
  }

  /** The lengths of the maximal runs of unusable outcomes, split at every other
      outcome; runs of length zero are kept. */
  function RunLengths(outs: seq<Outcome>): (lens: seq<nat>)
    ensures |lens| > 0
  {
    if |outs| == 0 then [0]
    else
      var before := RunLengths(outs[..|outs| - 1]);
      if outs[|outs| - 1] == Unusable then before[|before| - 1 := before[|before| - 1] + 1]
      else before + [0]
  }

  function SumQuotients(lens: seq<nat>, t: nat): nat
    requires t >= 1
  {
    if |lens| == 0 then 0 else SumQuotients(lens[..|lens| - 1], t) + lens[|lens| - 1] / t
  }

  lemma {:induction false} QuotientStep(l: nat, t: nat)
    requires t >= 1
    ensures l % t + 1 >= t ==> (l + 1) / t == l / t + 1 && (l + 1) % t == 0
    ensures l % t + 1 < t ==> (l + 1) / t == l / t && (l + 1) % t == l % t + 1
  {
    var q, r := l / t, l % t;
    assert l == q * t + r;
    if r + 1 >= t {
      assert l + 1 == (q + 1) * t + 0;
      DivModUnique(l + 1, t, q + 1, 0);
    } else {
      assert l + 1 == q * t + (r + 1);
      DivModUnique(l + 1, t, q, r + 1);
    }
  }

  lemma {:induction false} DivModUnique(n: nat, t: nat, q: nat, r: nat)
    requires t >= 1 && r < t && n == q * t + r
    ensures n / t == q && n % t == r
  {
    var q', r' := n / t, n % t;
    assert n == q' * t + r';
    assert q' < q ==> q * t >= (q' + 1) * t;
    assert q' > q ==> q' * t >= (q + 1) * t;
  }

  /** After any history the salt counts, run by run, how often the threshold was
      reached, and the pending streak is what the last run left over. */
  lemma {:induction false} SaltOfHistory(outs: seq<Outcome>, threshold: int)
    ensures var lens, t := RunLengths(outs), AtLeastOne(threshold);
      After(outs, threshold) == SaltState(SumQuotients(lens, t), lens[|lens| - 1] % t)
  {
    var t := AtLeastOne(threshold);
    if |outs| == 0 {
      DivModUnique(0, t, 0, 0);
    } else {
      var before := outs[..|outs| - 1];
      SaltOfHistory(before, threshold);
      var lens, lens' := RunLengths(before), RunLengths(outs);
      if outs[|outs| - 1] == Unusable {
        assert lens'[..|lens'| - 1] == lens[..|lens| - 1];
        QuotientStep(lens[|lens| - 1], t);
      } else {
        assert lens'[..|lens'| - 1] == lens;
        DivModUnique(0, t, 0, 0);
      }
    }
  }

  // ---------- Histories inside a run of the shared store ----------

  /** Every operation on k is a lookup or an outcome recorded with this threshold. */
  predicate OutcomesOnly(ops: seq<Op>, hash: string -> string, k: string, threshold: int) {
    forall i :: 0 <= i < |ops| && KeyOf(ops[i], hash) == k ==>
      ops[i].Get? || ops[i].Clear? || (ops[i].Fail? && ops[i].threshold == threshold)
  }

  /** The outcomes of one identity in a run of all identities. */
  function HistoryOf(ops: seq<Op>, hash: string -> string, k: string): seq<Outcome> {
    if |ops| == 0 then []
    else
      var op, before := ops[|ops| - 1], HistoryOf(ops[..|ops| - 1], hash, k);
      if KeyOf(op, hash) != k || op.Get? then before
      else before + [if op.Fail? then Unusable else Response]
  }

  lemma {:induction false} MapKeepsHistory(ops: seq<Op>, hash: string -> string, k: string, threshold: int)
    requires OutcomesOnly(ops, hash, k, threshold)
    ensures ValueOf(RunMap(hash, ops), k) == After(HistoryOf(ops, hash, k), threshold)
  {
    if |ops| > 0 {
      var before, op := ops[..|ops| - 1], ops[|ops| - 1];
      assert OutcomesOnly(before, hash, k, threshold);
      MapKeepsHistory(before, hash, k, threshold);
      var h := HistoryOf(before, hash, k);
      if KeyOf(op, hash) == k && !op.Get? {
        var h' := HistoryOf(ops, hash, k);
        assert h'[..|h'| - 1] == h;
      }
    }
  }

  /** In the shared bounded store, an identity that stays warm has exactly the salt
      and streak its own history calls for, whatever the others do. */
  lemma {:induction false} StoreKeepsHistory(cap: nat, hash: string -> string, ops: seq<Op>, k: string, threshold: int)
    requires cap >= 1 && KeptWarm(ops, cap, hash, k) && OutcomesOnly(ops, hash, k, threshold)
    ensures var lens, t := RunLengths(HistoryOf(ops, hash, k)), AtLeastOne(threshold);
      ValueOf(RunLru(cap, hash, ops).vals, k) == SaltState(SumQuotients(lens, t), lens[|lens| - 1] % t)
  {
    LruRefinesMap(cap, hash, ops, k);
    MapKeepsHistory(ops, hash, k, threshold);
    SaltOfHistory(HistoryOf(ops, hash, k), threshold);
  }

  // ---------- Derived identities ----------

  /** The system salt, marked with the identity's own salt once it was rotated. */
  function CombineSalt(systemSalt: string, perMarker: int): string {
    if perMarker == 0 then systemSalt else systemSalt + "#k" + Itoa(perMarker)
  }

  lemma {:induction false} SameTail(a: string, b: string, tail: string)
    ensures a + tail == b + tail <==> a == b
  {
    if a + tail == b + tail {
      assert |a + tail| == |b + tail|;
      assert a == (a + tail)[..|a|] == (b + tail)[..|b|] == b;
    }
  }

  lemma {:induction false} SameHead(head: string, a: string, b: string)
    ensures head + a == head + b <==> a == b
  {
    if head + a == head + b {
      assert a == (head + a)[|head|..] == (head + b)[|head|..] == b;
    }
  }

  /** Two salts of one identity give the same hash preimage only if they are equal:
      every rotation changes what is hashed.  `tail` is what follows the salt, the
      namespace mark and the identity. */
  lemma {:induction false} PreimagesDiffer(systemSalt: string, n1: nat, n2: nat, tail: string)
    ensures CombineSalt(systemSalt, n1) + tail == CombineSalt(systemSalt, n2) + tail <==> n1 == n2
  {
    SameTail(CombineSalt(systemSalt, n1), CombineSalt(systemSalt, n2), tail);
    if n1 == 0 || n2 == 0 {
      assert n1 != n2 ==> |CombineSalt(systemSalt, n1)| != |CombineSalt(systemSalt, n2)|;
    } else {
      SameHead(systemSalt + "#k", Itoa(n1), Itoa(n2));
      ItoaInjective(n1, n2);
    }
  }

  /** Along a history the salt never falls, and two moments of it share a preimage
      exactly if no rotation lies between them. */
  lemma {:induction false} HistoryPreimages(outs: seq<Outcome>, n: nat, threshold: int, systemSalt: string,
                                            tail: string)
    requires n <= |outs|
    ensures 0 <= After(outs[..n], threshold).salt <= After(outs, threshold).salt
    ensures var then_, now := After(outs[..n], threshold).salt, After(outs, threshold).salt;
      CombineSalt(systemSalt, then_) + tail == CombineSalt(systemSalt, now) + tail <==> then_ == now
  {
    SaltNeverFalls(outs, n, threshold);
    PreimagesDiffer(systemSalt, After(outs[..n], threshold).salt, After(outs, threshold).salt, tail);
  }

  lemma {:induction false} SaltNeverFalls(outs: seq<Outcome>, n: nat, threshold: int)
    requires n <= |outs|
    ensures 0 <= After(outs[..n], threshold).salt <= After(outs, threshold).salt
  {
    if n < |outs| {
      SaltNeverFalls(outs[..|outs| - 1], n, threshold);
      assert outs[..|outs| - 1][..n] == outs[..n];
    } else {
      assert outs[..n] == outs;
      SaltOfHistory(outs, threshold);
    }
  }
}
