/** Publishing the tables to the routing path.  Any number of writers commit store
    operations; each then takes the map-change lock, reads the tables and swaps the
    in-memory registry and binding table.  Commits never wait for that lock. */
module Publish {
  import opened Text
  import opened Tables
  import opened StoreRuns

  // ---------- Which reload follows which commit ----------

  datatype Reload = NoReload | BindingsOnly | Full

  function ReloadOf(t: Tables, op: Op): Reload {
    match op
    case OpDeleteSource(_) => Full
    case OpSnapshot(id, _, keep, threshold, _) =>
      var o := GuardOutcome(t, id, keep, threshold);
      if o.SourceGone? || o.Deferred? then NoReload else Full
    case OpReplaceSnapshot(id, _, _, _) => if id in t.sources then Full else NoReload
    case OpDelta(id, _, _, _) => if id in t.sources then Full else NoReload
    case OpPush(_, _, _, _, _, _) => Full
    case OpDeleteAccount(_, _, _) => Full
    case OpClearFp(_, _, _, hits, _) => if |hits| > 0 then Full else NoReload
    case OpPutBinding(p, a, mode, ids, _) => if PutBindingAccepted(t, p, a, mode, ids) then BindingsOnly else NoReload
    case OpDeleteBinding(_, _, _) => BindingsOnly
    case OpClearBindings => BindingsOnly
    case OpPutBatch(id, accounts, mode, _) => if PutBatchAccepted(t, id, accounts, mode) then BindingsOnly else NoReload
    case OpDeleteUpstream(id) => if id in t.upstreams then BindingsOnly else NoReload
    case _ => NoReload
  }

  lemma {:induction false} ReloadCoversRows(t: Tables, op: Op)
    requires Inv(t)
    ensures ReloadOf(t, op) != Full ==> Apply(t, op).acct == t.acct
  {
  }

  lemma {:induction false} ReloadCoversBindings(t: Tables, op: Op)
    requires Inv(t)
    ensures ReloadOf(t, op) == NoReload ==> Apply(t, op).egress == t.egress
  {
    if op.OpDeleteUpstream? && op.id !in t.upstreams {
      assert forall k :: k in t.egress ==> IsPlain(t, k.egressId);
      assert Apply(t, op).egress == t.egress;
    }
  }

  /** Every commit is followed by a reload of whatever it may have changed. */
  lemma {:induction false} ReloadCoversChange(t: Tables, op: Op)
    requires Inv(t)
    ensures ReloadOf(t, op) != Full ==> Apply(t, op).acct == t.acct
    ensures ReloadOf(t, op) == NoReload ==> Apply(t, op).egress == t.egress
  {
    ReloadCoversRows(t, op);
    ReloadCoversBindings(t, op);
  }

  // ---------- The protocol ----------

  /** Where a writer is.  `full`: it reloads the registry too; `at`: the version its
      commit made; `seen`: the version it read. */
  datatype Pc =
    | Idle
    | Pending(full: bool, at: nat)
    | Locked(full: bool, at: nat)
    | RowsRead(at: nat, rows: AcctMap, seen: nat)
    | RegistryDone(full: bool, at: nat)
    | BindingsRead(full: bool, at: nat, bindings: EgressMap, seen: nat)
    | Swapped(full: bool, at: nat)

  /** `history` holds the committed versions, the current one last. */
  datatype State = State(history: seq<Tables>, lock: Option<nat>, writers: map<nat, Pc>,
                         registry: AcctMap, registryOf: nat, bindings: EgressMap, bindingsOf: nat)

  datatype Action =
    | Commit(w: nat, op: Op)
    | Acquire(w: nat)
    | ReadRows(w: nat)
    | SwapRegistry(w: nat)
    | SkipRegistry(w: nat)
    | ReadBindings(w: nat)
    | SwapBindings(w: nat)
    | Release(w: nat)

  function PcOf(s: State, w: nat): Pc { if w in s.writers then s.writers[w] else Idle }

  function Current(s: State): Tables
    requires |s.history| > 0
  {
    s.history[|s.history| - 1]
  }

  function Start(t: Tables): State { State([t], None, map[], t.acct, 0, t.egress, 0) }

  ghost predicate Enabled(s: State, a: Action)
  {
    && |s.history| > 0
    && match a
      case Commit(w, op) => PcOf(s, w).Idle? && WellFormed(Current(s), op)
      case Acquire(w) => PcOf(s, w).Pending? && s.lock.None?
      case ReadRows(w) => PcOf(s, w).Locked? && PcOf(s, w).full
      case SwapRegistry(w) => PcOf(s, w).RowsRead?
      case SkipRegistry(w) => PcOf(s, w).Locked? && !PcOf(s, w).full
      case ReadBindings(w) => PcOf(s, w).RegistryDone?
      case SwapBindings(w) => PcOf(s, w).BindingsRead?
      case Release(w) => PcOf(s, w).Swapped?
  }

  function Move(s: State, w: nat, pc: Pc): State { s.(writers := s.writers[w := pc]) }

  ghost function Step(s: State, a: Action): State
    requires Enabled(s, a)
  {
    var pc := PcOf(s, a.w);
    match a
    case Commit(w, op) =>
      var reload := ReloadOf(Current(s), op);
      Move(s.(history := s.history + [Apply(Current(s), op)]), w,
           if reload == NoReload then Idle else Pending(reload == Full, |s.history|))
    case Acquire(w) => Move(s.(lock := Some(w)), w, Locked(pc.full, pc.at))
    case ReadRows(w) => Move(s, w, RowsRead(pc.at, Current(s).acct, |s.history| - 1))
    case SwapRegistry(w) => Move(s.(registry := pc.rows, registryOf := pc.seen), w, RegistryDone(true, pc.at))
    case SkipRegistry(w) => Move(s, w, RegistryDone(false, pc.at))
    case ReadBindings(w) => Move(s, w, BindingsRead(pc.full, pc.at, Current(s).egress, |s.history| - 1))
    case SwapBindings(w) => Move(s.(bindings := pc.bindings, bindingsOf := pc.seen), w, Swapped(pc.full, pc.at))
    case Release(w) => Move(s.(lock := None), w, Idle)
  }

  /** States reached by executing actions one after the other. */
  ghost predicate Reaches(s: State, actions: seq<Action>, s': State)
    decreases |actions|
  {
    if |actions| == 0 then s == s'
    else Enabled(s, actions[0]) && Reaches(Step(s, actions[0]), actions[1..], s')
  }

  // ---------- The invariant ----------

  predicate HoldsLock(pc: Pc) { !pc.Idle? && !pc.Pending? }

  /** The writer will still publish the registry for version j. */
  predicate OwesRegistry(pc: Pc, j: nat) {
    (pc.Pending? && pc.full && pc.at == j) || (pc.Locked? && pc.full && pc.at == j)
    || (pc.RowsRead? && pc.at == j && j <= pc.seen)
  }

  /** The writer will still publish the bindings for version j. */
  predicate OwesBindings(pc: Pc, j: nat) {
    !pc.Idle? && !pc.Swapped? && pc.at == j && (pc.BindingsRead? ==> j <= pc.seen)
  }

  ghost predicate PcOk(s: State, pc: Pc) {
    match pc
    case Idle => true
    case Pending(_, at) => at < |s.history|
    case Locked(_, at) => at < |s.history|
    case RowsRead(at, rows, seen) => at <= seen < |s.history| && s.registryOf <= seen && rows == s.history[seen].acct
    case RegistryDone(full, at) => at < |s.history| && (full ==> at <= s.registryOf)
    case BindingsRead(full, at, b, seen) =>
      at <= seen < |s.history| && s.bindingsOf <= seen && b == s.history[seen].egress && (full ==> at <= s.registryOf)
    case Swapped(full, at) => at <= s.bindingsOf && (full ==> at <= s.registryOf)
  }

  ghost predicate RegistryOwed(s: State, j: nat) { exists w: nat :: OwesRegistry(PcOf(s, w), j) }

  ghost predicate BindingsOwed(s: State, j: nat) { exists w: nat :: OwesBindings(PcOf(s, w), j) }

  ghost predicate Published(s: State) {
    && |s.history| > 0 && Inv(Current(s))
    && s.registryOf < |s.history| && s.registry == s.history[s.registryOf].acct
    && s.bindingsOf < |s.history| && s.bindings == s.history[s.bindingsOf].egress
  }

  ghost predicate Exclusive(s: State) {
    forall w: nat :: HoldsLock(PcOf(s, w)) <==> s.lock == Some(w)
  }

  ghost predicate AllOwed(s: State)
    requires |s.history| > 0
  {
    && (forall j :: s.registryOf < j < |s.history| && s.history[j].acct != s.history[j - 1].acct ==> RegistryOwed(s, j))
    && (forall j :: s.bindingsOf < j < |s.history| && s.history[j].egress != s.history[j - 1].egress ==>
          BindingsOwed(s, j))
  }

  ghost predicate Ok(s: State) {
    Published(s) && Exclusive(s) && (forall w: nat :: PcOk(s, PcOf(s, w))) && AllOwed(s)
  }

  lemma {:induction false} MoveOwed(s: State, s': State, w: nat)
    requires |s.history| > 0 && s'.history == s.history && AllOwed(s)
    requires s'.writers == s.writers[w := PcOf(s', w)]
    requires s.registryOf <= s'.registryOf && s.bindingsOf <= s'.bindingsOf
    requires forall j: nat :: s'.registryOf < j && OwesRegistry(PcOf(s, w), j) ==> OwesRegistry(PcOf(s', w), j)
    requires forall j: nat :: s'.bindingsOf < j && OwesBindings(PcOf(s, w), j) ==> OwesBindings(PcOf(s', w), j)
    ensures AllOwed(s')
  {
    forall j | s'.registryOf < j < |s'.history| && s'.history[j].acct != s'.history[j - 1].acct
        ensures RegistryOwed(s', j)
    {
      var u: nat :| OwesRegistry(PcOf(s, u), j);
      assert OwesRegistry(PcOf(s', u), j);
    }
    forall j | s'.bindingsOf < j < |s'.history| && s'.history[j].egress != s'.history[j - 1].egress
        ensures BindingsOwed(s', j)
    {
      var u: nat :| OwesBindings(PcOf(s, u), j);
      assert OwesBindings(PcOf(s', u), j);
    }
  }

  /** Appending a version: its own writer owes what it changed. */
  lemma {:induction false} CommitOwed(s: State, s': State, w: nat, t: Tables)
    requires |s.history| > 0 && AllOwed(s) && PcOf(s, w).Idle?
    requires s' == Move(s.(history := s.history + [t]), w, PcOf(s', w))
    requires t.acct != Current(s).acct ==> OwesRegistry(PcOf(s', w), |s.history|)
    requires t.egress != Current(s).egress ==> OwesBindings(PcOf(s', w), |s.history|)
    ensures AllOwed(s')
  {
    assert forall j :: 0 <= j < |s.history| ==> s'.history[j] == s.history[j];
    forall j | s'.registryOf < j < |s'.history| && s'.history[j].acct != s'.history[j - 1].acct
        ensures RegistryOwed(s', j)
    {
      if j < |s.history| {
        var u: nat :| OwesRegistry(PcOf(s, u), j);
        assert OwesRegistry(PcOf(s', u), j);
      }
    }
    forall j | s'.bindingsOf < j < |s'.history| && s'.history[j].egress != s'.history[j - 1].egress
        ensures BindingsOwed(s', j)
    {
      if j < |s.history| {
        var u: nat :| OwesBindings(PcOf(s, u), j);
        assert OwesBindings(PcOf(s', u), j);
      }
    }
  }

  lemma {:induction false} CommitPcs(s: State, s': State, w: nat, t: Tables)
    requires Ok(s) && PcOf(s, w).Idle? && Inv(t)
    requires s' == Move(s.(history := s.history + [t]), w, PcOf(s', w))
    requires PcOf(s', w).Idle? || (PcOf(s', w).Pending? && PcOf(s', w).at == |s.history|)
    ensures Published(s') && Exclusive(s') && forall u: nat :: PcOk(s', PcOf(s', u))
  {
    assert forall j :: 0 <= j < |s.history| ==> s'.history[j] == s.history[j];
    forall u: nat ensures PcOk(s', PcOf(s', u)) {
      assert PcOk(s, PcOf(s, u));
    }
  }

  lemma {:induction false} CommitOk(s: State, w: nat, op: Op)
    requires Ok(s) && Enabled(s, Commit(w, op))
    ensures Ok(Step(s, Commit(w, op)))
  {
    var t := Apply(Current(s), op);
    ApplyKeeps(Current(s), op);
    ReloadCoversChange(Current(s), op);
    CommitPcs(s, Step(s, Commit(w, op)), w, t);
    CommitOwed(s, Step(s, Commit(w, op)), w, t);
  }

  lemma {:induction false} MovePublished(s: State, a: Action)
    requires Published(s) && PcOk(s, PcOf(s, a.w)) && Enabled(s, a) && !a.Commit?
    ensures Published(Step(s, a))
  {
    assert Current(Step(s, a)) == Current(s);
  }

  lemma {:induction false} MoveExclusive(s: State, a: Action)
    requires Exclusive(s) && Enabled(s, a) && !a.Commit?
    ensures Exclusive(Step(s, a))
  {
  }

  lemma {:induction false} MovePc(s: State, a: Action, u: nat)
    requires Exclusive(s) && Enabled(s, a) && !a.Commit?
    requires s.registryOf < |s.history| && s.bindingsOf < |s.history|
    requires PcOk(s, PcOf(s, a.w)) && PcOk(s, PcOf(s, u))
    ensures PcOk(Step(s, a), PcOf(Step(s, a), u))
  {
  }

  lemma {:induction false} MovePcs(s: State, a: Action)
    requires Ok(s) && Enabled(s, a) && !a.Commit?
    ensures var s' := Step(s, a); Published(s') && Exclusive(s') && forall u: nat :: PcOk(s', PcOf(s', u))
  {
    assert PcOk(s, PcOf(s, a.w));
    MovePublished(s, a);
    MoveExclusive(s, a);
    forall u: nat ensures PcOk(Step(s, a), PcOf(Step(s, a), u)) {
      MovePc(s, a, u);
    }
  }

  lemma {:induction false} StepOk(s: State, a: Action)
    requires Ok(s) && Enabled(s, a)
    ensures Ok(Step(s, a))
    ensures s.registryOf <= Step(s, a).registryOf && s.bindingsOf <= Step(s, a).bindingsOf
  {
    if a.Commit? {
      CommitOk(s, a.w, a.op);
    } else {
      assert PcOk(s, PcOf(s, a.w));
      MovePcs(s, a);
      MoveOwed(s, Step(s, a), a.w);
    }
  }

  // ---------- Main results ----------

  lemma {:induction false} ReachesOk(s: State, actions: seq<Action>, s': State)
    requires Ok(s) && Reaches(s, actions, s')
    ensures Ok(s') && s.registryOf <= s'.registryOf && s.bindingsOf <= s'.bindingsOf
    decreases |actions|
  {
    if |actions| > 0 {
      StepOk(s, actions[0]);
      ReachesOk(Step(s, actions[0]), actions[1..], s');
    }
  }

  lemma StartOk(t: Tables)
    requires Inv(t)
    ensures Ok(Start(t))
  {
  }

  /** Published snapshots are always committed versions and never go back to an older
      one, in every interleaving. */
  lemma {:induction false} PublishedNeverGoesBack(t: Tables, first: seq<Action>, s1: State, more: seq<Action>,
                                                  s2: State)
    requires Inv(t) && Reaches(Start(t), first, s1) && Reaches(s1, more, s2)
    ensures s1.registryOf <= s2.registryOf < |s2.history| && s2.registry == s2.history[s2.registryOf].acct
    ensures s1.bindingsOf <= s2.bindingsOf < |s2.history| && s2.bindings == s2.history[s2.bindingsOf].egress
  {
    StartOk(t);
    ReachesOk(Start(t), first, s1);
    ReachesOk(s1, more, s2);
  }

  lemma {:induction false} UnchangedSince(history: seq<Tables>, n: nat)
    requires n < |history|
    ensures (forall j :: n < j < |history| ==> history[j].acct == history[j - 1].acct) ==>
      history[n].acct == history[|history| - 1].acct
    ensures (forall j :: n < j < |history| ==> history[j].egress == history[j - 1].egress) ==>
      history[n].egress == history[|history| - 1].egress
    decreases |history| - n
  {
    if n + 1 < |history| {
      UnchangedSince(history, n + 1);
    }
  }

  lemma {:induction false} QuietOwesNothing(s: State, j: nat)
    requires forall w: nat :: PcOf(s, w).Idle?
    ensures !RegistryOwed(s, j) && !BindingsOwed(s, j)
  {
  }

  lemma {:induction false} QuietState(s: State)
    requires Ok(s) && forall w: nat :: PcOf(s, w).Idle?
    ensures s.registry == Current(s).acct && s.bindings == Current(s).egress
  {
    forall j | s.registryOf < j < |s.history| ensures s.history[j].acct == s.history[j - 1].acct {
      QuietOwesNothing(s, j);
    }
    forall j | s.bindingsOf < j < |s.history| ensures s.history[j].egress == s.history[j - 1].egress {
      QuietOwesNothing(s, j);
    }
    UnchangedSince(s.history, s.registryOf);
    UnchangedSince(s.history, s.bindingsOf);
  }

  /** Whenever no writer is between its commit and the end of its reload, the
      published snapshots are what the current tables yield. */
  lemma {:induction false} QuietMeansCurrent(t: Tables, actions: seq<Action>, s: State)
    requires Inv(t) && Reaches(Start(t), actions, s)
    requires forall w: nat :: PcOf(s, w).Idle?
    ensures |s.history| > 0 && s.registry == Current(s).acct && s.bindings == Current(s).egress
  {
    StartOk(t);
    ReachesOk(Start(t), actions, s);
    QuietState(s);
  }

  /** A writer that is about to release the lock has its own commit published. */
  lemma {:induction false} OwnCommitPublished(t: Tables, actions: seq<Action>, s: State, w: nat)
    requires Inv(t) && Reaches(Start(t), actions, s) && Enabled(s, Release(w))
    ensures PcOf(s, w).at <= s.bindingsOf
    ensures PcOf(s, w).full ==> PcOf(s, w).at <= s.registryOf
  {
    StartOk(t);
    ReachesOk(Start(t), actions, s);
    assert PcOk(s, PcOf(s, w));
  }
}
