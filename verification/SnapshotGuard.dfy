/** The empty-snapshot guard over whole histories of the store. */
module SnapshotGuard {
  import opened Tables
  import opened StoreRuns

  // ---------- Counting empty snapshots ----------

  predicate IsSnapshotOf(op: Op, id: int) { op.OpSnapshot? && op.id == id }

  predicate IsEmptySnapshotOf(op: Op, id: int) { IsSnapshotOf(op, id) && |op.keep| == 0 }

  /** A snapshot that ends the count: a non-empty one, or one that finds no rows. */
  predicate Resets(before: Tables, op: Op, id: int) {
    IsSnapshotOf(op, id) && (|op.keep| > 0 || !OwnsRows(before.acct, SrcName(id)))
  }

  function CountEmpty(ops: seq<Op>, id: int): nat {
    if |ops| == 0 then 0
    else CountEmpty(ops[..|ops| - 1], id) + if IsEmptySnapshotOf(ops[|ops| - 1], id) then 1 else 0
  }

  /** Within ops[s..] nothing ends the count of source id. */
  ghost predicate Uninterrupted(t: Tables, ops: seq<Op>, id: int, s: nat) {
    forall i :: s <= i < |ops| ==> !Resets(Run(t, ops[..i]), ops[i], id)
  }

  /** The count of source id starts at position s: right behind the last reset, or where the
      source did not exist yet, or at the beginning. */
  ghost predicate CountsFrom(t: Tables, ops: seq<Op>, id: int, s: nat) {
    && s <= |ops| && Uninterrupted(t, ops, id, s)
    && (s == 0 || id !in Run(t, ops[..s - 1]).sources || Resets(Run(t, ops[..s - 1]), ops[s - 1], id))
  }

  lemma {:induction false} NoSnapshotNoStreak(t: Tables, op: Op, id: int)
    requires Inv(t) && !op.OpSnapshot? && id in t.sources && id in Apply(t, op).sources
    ensures Apply(t, op).sources[id].emptyStreak == t.sources[id].emptyStreak
  {
    if !IsSourceOp(op) {
      OthersLeaveSources(t, op);
    }
  }

  lemma {:induction false} StreakStep(t: Tables, op: Op, id: int)
    requires Inv(t) && id in t.sources && id in Apply(t, op).sources
    ensures Apply(t, op).sources[id].emptyStreak
         == if Resets(t, op, id) then 0
            else t.sources[id].emptyStreak + if IsEmptySnapshotOf(op, id) then 1 else 0
  {
    if !op.OpSnapshot? {
      NoSnapshotNoStreak(t, op, id);
    } else {
      assert Apply(t, op) == GuardedSnapshot(t, op.id, op.sourceType, op.keep, op.threshold, op.now);
    }
  }

  lemma {:induction false} FreshStreak(t: Tables, op: Op, id: int)
    requires Inv(t) && id !in t.sources && id in Apply(t, op).sources
    ensures Apply(t, op).sources[id].emptyStreak == 0 && !IsEmptySnapshotOf(op, id)
  {
    if !IsSourceOp(op) {
      OthersLeaveSources(t, op);
    }
  }

  lemma {:induction false} CountEmptySnoc(ops: seq<Op>, s: nat, id: int)
    requires s < |ops|
    ensures CountEmpty(ops[s..], id)
         == CountEmpty(ops[..|ops| - 1][s..], id) + if IsEmptySnapshotOf(ops[|ops| - 1], id) then 1 else 0
  {
    assert ops[s..][..|ops[s..]| - 1] == ops[..|ops| - 1][s..];
  }

  /** Where a count starts does not depend on what comes behind. */
  lemma {:induction false} CountsFromPrefix(t: Tables, ops: seq<Op>, id: int, s: nat)
    requires |ops| > 0 && s < |ops|
    ensures CountsFrom(t, ops, id, s)
            <==> CountsFrom(t, ops[..|ops| - 1], id, s) && !Resets(Run(t, ops[..|ops| - 1]), ops[|ops| - 1], id)
  {
    var before := ops[..|ops| - 1];
    if s > 0 {
      assert before[..s - 1] == ops[..s - 1] && before[s - 1] == ops[s - 1];
    }
    forall i | s <= i < |before|
      ensures Resets(Run(t, ops[..i]), ops[i], id) <==> Resets(Run(t, before[..i]), before[i], id)
    {
      assert before[..i] == ops[..i] && before[i] == ops[i];
    }
  }

  lemma {:induction false} NextGrows(t: Tables, op: Op)
    ensures t.nextSource <= Apply(t, op).nextSource
  {
    if !IsSourceOp(op) {
      OthersLeaveSources(t, op);
    }
  }

  /** For a source that was never there, every snapshot is a reset. */
  lemma {:induction false} NeverLiveCountsNothing(t: Tables, ops: seq<Op>, id: int, s: nat)
    requires Inv(t) && WellFormedRun(t, ops)
    requires CountsFrom(t, ops, id, s) && Run(t, ops).nextSource <= id
    ensures CountEmpty(ops[s..], id) == 0
  {
    if s < |ops| {
      var before, op := ops[..|ops| - 1], ops[|ops| - 1];
      WellFormedPrefix(t, ops);
      RunKeepsInv(t, before);
      CountsFromPrefix(t, ops, id, s);
      NextGrows(Run(t, before), op);
      NeverLiveCountsNothing(t, before, id, s);
      CountEmptySnoc(ops, s, id);
      NobodysRows(Run(t, before), id);
    }
  }

  lemma {:induction false} NobodysRows(t: Tables, id: int)
    requires Inv(t) && t.nextSource <= id
    ensures !OwnsRows(t.acct, SrcName(id))
  {
    SrcNameInjective(id, id);
    forall k | k in t.acct ensures k.source != SrcName(id) {
      if k.source != PUSH {
        var owner :| owner in t.sources && SrcName(owner) == k.source;
        SrcNameInjective(owner, id);
      }
    }
  }

  /** In every run, the streak column of a live source is the number of empty snapshots
      counted since the last reset. */
  lemma {:induction false} StreakIsCount(t: Tables, ops: seq<Op>, id: int, s: nat)
    requires Inv(t) && WellFormedRun(t, ops)
    requires id in t.sources ==> t.sources[id].emptyStreak == 0
    requires id in Run(t, ops).sources && CountsFrom(t, ops, id, s)
    ensures Run(t, ops).sources[id].emptyStreak == CountEmpty(ops[s..], id)
  {
    if |ops| > 0 {
      var before, op := ops[..|ops| - 1], ops[|ops| - 1];
      WellFormedPrefix(t, ops);
      RunKeepsInv(t, before);
      if id in Run(t, before).sources {
        StreakStep(Run(t, before), op, id);
      } else {
        FreshStreak(Run(t, before), op, id);
      }
      if s < |ops| {
        CountEmptySnoc(ops, s, id);
        CountsFromPrefix(t, ops, id, s);
        if id in Run(t, before).sources {
          StreakIsCount(t, before, id, s);
        } else {
          RunKeepsInv(t, ops);
          FreshIsNew(Run(t, before), op, id);
          NeverLiveCountsNothing(t, before, id, s);
        }
      }
    }
  }

  lemma {:induction false} FreshIsNew(t: Tables, op: Op, id: int)
    requires Inv(t) && Inv(Apply(t, op)) && id !in t.sources && id in Apply(t, op).sources
    ensures t.nextSource <= id
  {
    if 0 < id < t.nextSource {
      GoneStaysGone(t, op, id);
    }
  }

  /** Every history has a position from which the count runs. */
  lemma {:induction false} CountStarts(t: Tables, ops: seq<Op>, id: int) returns (s: nat)
    ensures CountsFrom(t, ops, id, s)
  {
    if |ops| == 0 {
      s := 0;
    } else {
      var before := ops[..|ops| - 1];
      s := CountStarts(t, before, id);
      if Resets(Run(t, before), ops[|ops| - 1], id) {
        s := |ops|;
      } else {
        CountsFromPrefix(t, ops, id, s);
      }
    }
  }

  // ---------- Main results ----------

  /** The guard, exactly, in any history: an empty snapshot takes a source's rows if and
      only if, with itself, at least `threshold` empty snapshots were counted since the last
      one that was non-empty or found no rows.  There is such a position to count from, and
      which one is taken makes no difference. */
  lemma {:induction false} EmptySnapshotClearsAtThreshold(t: Tables, ops: seq<Op>, id: int, sourceType: string,
                                                          threshold: int, now: int)
    requires Inv(t) && WellFormedRun(t, ops)
    requires id in t.sources ==> t.sources[id].emptyStreak == 0
    ensures exists s: nat :: CountsFrom(t, ops, id, s)
    ensures var before := Run(t, ops);
      var after := GuardedSnapshot(before, id, sourceType, [], threshold, now);
      id in before.sources && OwnsRows(before.acct, SrcName(id)) ==>
        forall s: nat :: CountsFrom(t, ops, id, s) ==>
          (!OwnsRows(after.acct, SrcName(id)) <==> CountEmpty(ops[s..], id) + 1 >= threshold)
  {
    var before := Run(t, ops);
    var s0 := CountStarts(t, ops, id);
    if id in before.sources && OwnsRows(before.acct, SrcName(id)) {
      forall s: nat | CountsFrom(t, ops, id, s)
        ensures !OwnsRows(GuardedSnapshot(before, id, sourceType, [], threshold, now).acct, SrcName(id))
                <==> CountEmpty(ops[s..], id) + 1 >= threshold
      {
        StreakIsCount(t, ops, id, s);
      }
    }
  }

  /** A deferred snapshot touches neither rows nor bindings. */
  lemma DeferredChangesNothing(t: Tables, id: int, sourceType: string, keep: seq<Upsert>, threshold: int, now: int)
    requires GuardOutcome(t, id, keep, threshold).Deferred?
    ensures var t' := GuardedSnapshot(t, id, sourceType, keep, threshold, now);
      t'.acct == t.acct && t'.egress == t.egress && OwnsRows(t'.acct, SrcName(id))
      && t'.sources[id].emptyStreak == t.sources[id].emptyStreak + 1 < threshold
  {
  }

  /** A clearing removes the rows of this source, only those, and the bindings of
      the accounts that lost their last row, only those. */
  lemma ClearingIsExact(t: Tables, id: int, sourceType: string, threshold: int, now: int)
    requires Inv(t) && GuardOutcome(t, id, [], threshold).Cleared?
    ensures var t' := GuardedSnapshot(t, id, sourceType, [], threshold, now);
      (forall k :: k in t'.acct <==> k in t.acct && k.source != SrcName(id))
      && (forall k :: k in t'.acct ==> t'.acct[k] == t.acct[k])
      && (forall e :: e in t'.egress <==> e in t.egress && AcctLive(t'.acct, e.platform, e.account))
      && (forall e :: e in t'.egress ==> t'.egress[e] == t.egress[e])
  {
  }
}
